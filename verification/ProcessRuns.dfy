/**
 What every interleaving of the steps of `Process` keeps: no wakeup is lost, sleep
 locks exclude, a process is RUNNING exactly while a CPU runs it, parents are alive,
 and each exit is reaped at most once.
 */
module ProcessRuns {
  import opened Process

  // ----- the invariant ----------------------------------------------------------------

  /** Indices inside a control point. */
  predicate PcOk(pc: Pc, n: nat, m: nat) {
    match pc
    case SwYield(back) => Preemptible(back) && CoreOk(back, n, m)
    case Yielded(back) => Preemptible(back) && CoreOk(back, n, m)
    case Resume(back) => Preemptible(back) && CoreOk(back, n, m)
    case _ => CoreOk(pc, n, m)
  }

  predicate CoreOk(pc: Pc, n: nat, m: nat) {
    match pc
    case KillScan(_, j) => j <= n
    case Inside(k, _) => k < m
    case Signal(k, _, _, j) => k < m && j <= n
    case AcqTest(k) => k < m
    case SleepEnter(lk) => lk.LockOf? ==> lk.k < m
    case SleepLocked(lk) => lk.LockOf? ==> lk.k < m
    case SleepMark(lk) => lk.LockOf? ==> lk.k < m
    case SwSleep(lk) => lk.LockOf? ==> lk.k < m
    case Asleep(lk) => lk.LockOf? ==> lk.k < m
    case SleepBack(lk) => lk.LockOf? ==> lk.k < m
    case Reacquire(lk) => lk.LockOf? ==> lk.k < m
    case Reparent(_, j) => j <= n
    case ReparentWake(_, j, k) => j < n && k <= n
    case ExitWake(_, k) => k <= n
    case WaitScan(j, _) => j <= n
    case ForkParent(np) => np < n
    case ForkRun(np) => np < n
    case _ => true
  }

  predicate Exiting(pc: Pc) {
    pc.Reparent? || pc.ReparentWake? || pc.ExitWake? || pc.ExitZombie? || pc.SwExit?
  }

  /** No kill(0) is on its way here, and an unused slot bears no mark. */
  predicate Unmarked(p: Proc) {
    (p.state == UNUSED ==> !p.killed) && !(Core(p.pc).KillScan? && Core(p.pc).pid == 0)
  }

  /** State, p->lock and channel that go with a control point. */
  predicate Local(i: nat, p: Proc, s: Kernel) {
    && PcOk(p.pc, |s.procs|, |s.locks|) && (s.zeroed || Unmarked(p))
    && (p.state == SLEEPING ==> (p.pc.SwSleep? || p.pc.Asleep?) && p.chan == ChanOf(i, p.pc.lk))
    && (Exiting(p.pc) || p.pc.Free? || p.pc.New? || p.pc.Gone? ==> p.held == {})
    && match p.pc
       case Free => p.state == UNUSED && !p.lock && p.pid == 0 && p.parent == Nobody
       case New => (p.state == USED || p.state == RUNNABLE) && !p.lock
       case Yielded(_) => p.state == RUNNABLE && !p.lock
       case Asleep(_) => (p.state == SLEEPING || p.state == RUNNABLE) && !p.lock
       case Gone => p.state == ZOMBIE && !p.lock
       case SwYield(_) => p.state == RUNNABLE && p.lock
       case SwSleep(_) => p.state == SLEEPING && p.lock
       case ExitZombie => p.state == ZOMBIE && p.lock
       case SwExit => p.state == ZOMBIE && p.lock
       case Resume(_) => p.state == RUNNING && p.lock
       case SleepBack(_) => p.state == RUNNING && p.lock
       case SleepLocked(_) => p.state == RUNNING && p.lock
       case SleepMark(_) => p.state == RUNNING && p.lock
       case _ => p.state == RUNNING && !p.lock
  }

  ghost predicate LocalOk(s: Kernel) {
    && (forall i :: 0 <= i < |s.procs| ==> Local(i, s.procs[i], s))
    && (forall c :: 0 <= c < |s.handlers| ==> HandlerAt(s.handlers[c], |s.procs|, |s.locks|))
  }

  /** A handler is at rest or inside a spinlock. */
  predicate HandlerAt(pc: Pc, n: nat, m: nat) {
    pc.Ready? || (Wakes(pc) && CoreOk(pc, n, m))
  }

  /** Each CPU's current process is on that CPU, and each process that is on a CPU is its current one. */
  ghost predicate CpuOk(s: Kernel) {
    && (forall c :: 0 <= c < |s.cpus| && s.cpus[c].Thread? ==>
          s.cpus[c].i < |s.procs| && OnCpu(s.procs[s.cpus[c].i].pc) && s.procs[s.cpus[c].i].cpu == c)
    && (forall i :: 0 <= i < |s.procs| && OnCpu(s.procs[i].pc) ==>
          s.procs[i].cpu < |s.cpus| && s.cpus[s.procs[i].cpu] == Thread(i))
  }

  predicate HoldsWait(pc: Pc) {
    || pc.Reparent? || pc.ReparentWake? || pc.ExitWake? || pc.ExitZombie? || pc.WaitScan?
    || ((pc.SleepEnter? || pc.SleepLocked?) && pc.lk.WaitLock?)
  }

  /** The spinlock, other than wait_lock and p->lock, that is held at a control point, or -1. */
  function SpinHeld(pc: Pc): (k: int) {
    match pc
    case Inside(k, _) => k
    case Signal(k, _, _, _) => k
    case AcqTest(k) => k
    case SleepEnter(lk) => if lk.LockOf? then lk.k else -1
    case SleepLocked(lk) => if lk.LockOf? then lk.k else -1
    case _ => -1
  }

  /** wait_lock and the spinlocks are held by at most one process each. */
  ghost predicate SpinsOk(s: Kernel) {
    && (s.waitLock.Thread? ==> s.waitLock.i < |s.procs| && HoldsWait(s.procs[s.waitLock.i].pc))
    && (forall i :: 0 <= i < |s.procs| && HoldsWait(s.procs[i].pc) ==> s.waitLock == Thread(i))
    && (forall k :: 0 <= k < |s.locks| && s.locks[k].spin.Thread? ==>
          s.locks[k].spin.i < |s.procs| && SpinHeld(s.procs[s.locks[k].spin.i].pc) == k)
    && (forall i :: 0 <= i < |s.procs| && SpinHeld(s.procs[i].pc) >= 0 ==>
          SpinHeld(s.procs[i].pc) < |s.locks| && s.locks[SpinHeld(s.procs[i].pc)].spin == Thread(i))
    && HandlerSpinsOk(s)
  }

  /** The same for the spinlocks that interrupt handlers hold. */
  ghost predicate HandlerSpinsOk(s: Kernel) {
    && (forall k :: 0 <= k < |s.locks| && s.locks[k].spin.Handler? ==>
          s.locks[k].spin.c < |s.handlers| && SpinHeld(s.handlers[s.locks[k].spin.c]) == k)
    && (forall c :: 0 <= c < |s.handlers| && SpinHeld(s.handlers[c]) >= 0 ==>
          SpinHeld(s.handlers[c]) < |s.locks| && s.locks[SpinHeld(s.handlers[c])].spin == Handler(c))
  }

  /** Which process holds which sleep lock; channel 0 waits for the lock to be unlocked. */
  ghost predicate HeldOk(s: Kernel) {
    && (forall k :: 0 <= k < |s.locks| ==> (0 in s.locks[k].ready <==> !s.locks[k].locked))
    && (forall k :: 0 <= k < |s.locks| && s.locks[k].locked ==>
          && s.locks[k].holder < |s.procs| && k in s.procs[s.locks[k].holder].held
          && s.locks[k].pid == s.procs[s.locks[k].holder].pid)
    && (forall i, k {:trigger k in s.procs[i].held} :: 0 <= i < |s.procs| && k in s.procs[i].held ==>
          k < |s.locks| && s.locks[k].locked && s.locks[k].holder == i)
  }

  /** The channel that a process sleeps on, or is about to, other than in wait. */
  function Sought(p: Proc): (c: Chan) {
    match p.pc
    case SleepEnter(lk) => SpinChan(lk)
    case SleepLocked(lk) => SpinChan(lk)
    case SleepMark(lk) => SpinChan(lk)
    case SwSleep(lk) => if p.state == SLEEPING then SpinChan(lk) else NoChan
    case Asleep(lk) => if p.state == SLEEPING then SpinChan(lk) else NoChan
    case _ => NoChan
  }

  function SpinChan(lk: Spin): (c: Chan) {
    if lk.LockOf? then LockChan(lk.k, lk.ch) else NoChan
  }

  /** A process sleeps in wait, or is on the way to. */
  predicate Waits(p: Proc) {
    match p.pc
    case SleepEnter(lk) => lk.WaitLock?
    case SleepLocked(lk) => lk.WaitLock?
    case SleepMark(lk) => lk.WaitLock?
    case SwSleep(lk) => lk.WaitLock? && p.state == SLEEPING
    case Asleep(lk) => lk.WaitLock? && p.state == SLEEPING
    case _ => false
  }

  /** The holder of spinlock k has yet to wake process x on channel ch. */
  predicate Due(pc: Pc, k: nat, ch: nat, x: nat) {
    match pc
    case Inside(k', owed) => k' == k && ch in owed
    case Signal(k', owed, ch', j) => k' == k && (ch in owed || (ch == ch' && j <= x))
    case _ => false
  }

  predicate Pending(s: Kernel, k: nat, ch: nat, x: nat)
    requires k < |s.locks|
  {
    match s.locks[k].spin
    case Thread(i) => i < |s.procs| && Due(s.procs[i].pc, k, ch, x)
    case Handler(c) => c < |s.handlers| && Due(s.handlers[c], k, ch, x)
    case Nobody => false
  }

  /** No lost wakeup: the condition of who sleeps does not hold, or the sleeper will be woken. */
  ghost predicate SleepOk(s: Kernel) {
    forall x :: 0 <= x < |s.procs| && Sought(s.procs[x]).LockChan? ==> SoughtOk(s, Sought(s.procs[x]), x)
  }

  predicate SoughtOk(s: Kernel, c: Chan, x: nat)
    requires c.LockChan?
  {
    c.k < |s.locks| && (c.ch !in s.locks[c.k].ready || Pending(s, c.k, c.ch, x))
  }

  /** reparent's wakeup(initproc) is under way and has yet to come to x, which is init. */
  predicate InitWaking(s: Kernel, x: nat) {
    && s.waitLock.Thread? && s.waitLock.i < |s.procs|
    && (var pc := s.procs[s.waitLock.i].pc; pc.ReparentWake? && x == s.init && pc.k <= x)
  }

  /** No parent sleeps in wait beside a zombie child, unless it is about to be woken. */
  ghost predicate WaitOk(s: Kernel) {
    forall x, y :: 0 <= x < |s.procs| && 0 <= y < |s.procs| && Waits(s.procs[x]) && ZombieOf(s.procs[y], x) ==>
      InitWaking(s, x)
  }

  predicate ZombieOf(p: Proc, x: nat) {
    p.parent == Thread(x) && p.state == ZOMBIE
  }

  ghost predicate NoChildBelow(s: Kernel, x: nat, d: nat) {
    forall y :: 0 <= y < d && y < |s.procs| ==> s.procs[y].parent != Thread(x)
  }

  /** How far the holder of wait_lock has come. */
  ghost predicate HolderOk(s: Kernel, x: nat)
    requires x < |s.procs|
  {
    match s.procs[x].pc
    case WaitScan(j, kids) =>
      forall y :: 0 <= y < j && y < |s.procs| && s.procs[y].parent == Thread(x) ==> s.procs[y].state != ZOMBIE && kids
    case Reparent(_, j) => NoChildBelow(s, x, j)
    case ReparentWake(_, j, _) => NoChildBelow(s, x, j + 1)
    case ExitWake(_, k) =>
      && NoChildBelow(s, x, |s.procs|)
      && (s.procs[x].parent.Thread? && s.procs[x].parent.i < k && s.procs[x].parent.i < |s.procs| ==>
            !Waits(s.procs[s.procs[x].parent.i]))
    case _ => true
  }

  ghost predicate WaitLockOk(s: Kernel) {
    s.waitLock.Thread? && s.waitLock.i < |s.procs| ==> HolderOk(s, s.waitLock.i)
  }

  predicate Alive(st: State) {
    st == SLEEPING || st == RUNNABLE || st == RUNNING
  }

  /** Parents are alive, init never exits, and every other started process has a parent. */
  ghost predicate ParentOk(s: Kernel) {
    && s.init < |s.procs| && Alive(s.procs[s.init].state) && !Exiting(s.procs[s.init].pc)
    && (forall y :: 0 <= y < |s.procs| && s.procs[y].parent.Thread? ==>
          s.procs[y].parent.i < |s.procs| && Alive(s.procs[s.procs[y].parent.i].state))
    && (forall y :: 0 <= y < |s.procs| && y != s.init && Started(s.procs[y].state) ==> s.procs[y].parent.Thread?)
  }

  /** A process has begun to run, or is ready to. */
  predicate Started(st: State) {
    Alive(st) || st == ZOMBIE
  }

  ghost predicate PidOk(s: Kernel) {
    && 0 < s.nextpid
    && (forall x :: 0 <= x < |s.procs| && s.procs[x].state != UNUSED ==> 0 < s.procs[x].pid < s.nextpid)
    && (forall x, y :: 0 <= x < y < |s.procs| && s.procs[x].state != UNUSED && s.procs[y].state != UNUSED ==>
          s.procs[x].pid != s.procs[y].pid)
  }

  /** The exit status waits in xstate until it is reaped, once. */
  ghost predicate HistoryOk(s: Kernel) {
    && (forall q :: q in s.exited ==> q < s.nextpid)
    && (forall x :: 0 <= x < |s.procs| && s.procs[x].state == ZOMBIE ==>
          s.procs[x].pid in s.exited && s.exited[s.procs[x].pid] == s.procs[x].xstate)
    && (forall x :: 0 <= x < |s.procs| && s.procs[x].state != ZOMBIE && s.procs[x].state != UNUSED ==>
         s.procs[x].pid !in s.exited)
    && (forall r :: 0 <= r < |s.reaped| ==>
         s.reaped[r].pid in s.exited && s.exited[s.reaped[r].pid] == s.reaped[r].status)
    && (forall q, r :: 0 <= q < r < |s.reaped| ==> s.reaped[q].pid != s.reaped[r].pid)
    && (forall x, r :: 0 <= x < |s.procs| && s.procs[x].state == ZOMBIE && 0 <= r < |s.reaped| ==>
         s.reaped[r].pid != s.procs[x].pid)
  }

  predicate Forking(pc: Pc) {
    Core(pc).ForkParent? || Core(pc).ForkRun?
  }

  /** A process in fork has its child, still USED, to itself. */
  ghost predicate ForkOk(s: Kernel) {
    forall x :: 0 <= x < |s.procs| && Forking(s.procs[x].pc) ==>
      var pc := Core(s.procs[x].pc);
      && pc.np < |s.procs| && s.procs[pc.np].state == USED && s.procs[pc.np].forker == x
      && (pc.ForkRun? ==> s.procs[pc.np].parent == Thread(x))
  }

  ghost predicate Inv(s: Kernel) {
    && LocalOk(s) && CpuOk(s) && SpinsOk(s) && HeldOk(s) && SleepOk(s) && WaitOk(s) && WaitLockOk(s)
    && ParentOk(s) && PidOk(s) && HistoryOk(s) && ForkOk(s)
  }

  // ----- frames: what a change of processes i and j keeps --------------------------------

  ghost predicate Others(s: Kernel, s': Kernel, i: nat, j: nat) {
    && |s'.procs| == |s.procs| && |s'.cpus| == |s.cpus| && |s'.locks| == |s.locks| && s'.init == s.init
    && (s.zeroed ==> s'.zeroed) && s'.handlers == s.handlers && i < |s.procs| && j < |s.procs|
    && (forall x :: 0 <= x < |s.procs| && x != i && x != j ==> s'.procs[x] == s.procs[x])
  }

  lemma {:induction false} LocalFrame(s: Kernel, s': Kernel, i: nat, j: nat)
    requires LocalOk(s) && Others(s, s', i, j)
    ensures Local(i, s'.procs[i], s') && Local(j, s'.procs[j], s') ==> LocalOk(s')
  {
    hide PcOk, Unmarked;
  }

  predicate CpuSame(p: Proc, p': Proc) {
    OnCpu(p'.pc) == OnCpu(p.pc) && (OnCpu(p.pc) ==> p'.cpu == p.cpu)
  }

  lemma {:induction false} CpuFrame(s: Kernel, s': Kernel, i: nat, j: nat)
    requires CpuOk(s) && Others(s, s', i, j)
    ensures s'.cpus == s.cpus && CpuSame(s.procs[i], s'.procs[i]) && CpuSame(s.procs[j], s'.procs[j]) ==> CpuOk(s')
  {
    hide OnCpu;
  }

  predicate SpinSame(p: Proc, p': Proc) {
    HoldsWait(p'.pc) == HoldsWait(p.pc) && SpinHeld(p'.pc) == SpinHeld(p.pc)
  }

  lemma {:induction false} SpinsFrame(s: Kernel, s': Kernel, i: nat, j: nat)
    requires SpinsOk(s) && Others(s, s', i, j)
    ensures s'.waitLock == s.waitLock && s'.locks == s.locks &&
            SpinSame(s.procs[i], s'.procs[i]) && SpinSame(s.procs[j], s'.procs[j])
            ==> SpinsOk(s')
  {
    hide HoldsWait, SpinHeld;
  }

  predicate HeldSame(p: Proc, p': Proc) {
    p'.held == p.held && (p'.pid == p.pid || p.held == {})
  }

  ghost predicate LocksHeldSame(s: Kernel, s': Kernel) {
    && |s'.locks| == |s.locks|
    && forall k :: 0 <= k < |s.locks| ==>
         && s'.locks[k].locked == s.locks[k].locked && s'.locks[k].holder == s.locks[k].holder
         && s'.locks[k].pid == s.locks[k].pid && (0 in s'.locks[k].ready <==> 0 in s.locks[k].ready)
  }

  lemma {:induction false} HeldFrame(s: Kernel, s': Kernel, i: nat, j: nat)
    requires HeldOk(s) && Others(s, s', i, j)
    ensures LocksHeldSame(s, s') && HeldSame(s.procs[i], s'.procs[i]) && HeldSame(s.procs[j], s'.procs[j]) ==>
              HeldOk(s')
  {
  }

  predicate Wakes(pc: Pc) {
    pc.Inside? || pc.Signal?
  }

  predicate SleepSame(p: Proc, p': Proc) {
    && (Sought(p') == Sought(p) || Sought(p') == NoChan)
    && (Wakes(p.pc) || Wakes(p'.pc) ==> p'.pc == p.pc)
  }

  /** No condition comes to hold, and no wakeup is cut short. */
  ghost predicate LocksSleepSame(s: Kernel, s': Kernel) {
    && |s'.locks| == |s.locks|
    && forall k :: 0 <= k < |s.locks| ==>
         && s'.locks[k].ready <= s.locks[k].ready
         && (s'.locks[k].spin == s.locks[k].spin || s.locks[k].spin == Nobody ||
             (s.locks[k].spin.Thread? && s.locks[k].spin.i < |s.procs| && !Wakes(s.procs[s.locks[k].spin.i].pc)))
  }

  lemma {:induction false} SleepFrame(s: Kernel, s': Kernel, i: nat, j: nat)
    requires SleepOk(s) && Others(s, s', i, j)
    ensures LocksSleepSame(s, s') && SleepSame(s.procs[i], s'.procs[i]) && SleepSame(s.procs[j], s'.procs[j]) ==>
              SleepOk(s')
  {
    hide Sought;
  }

  predicate WaitSame(p: Proc, p': Proc) {
    && (Waits(p') ==> Waits(p)) && (p'.state == ZOMBIE ==> p.state == ZOMBIE && p'.parent == p.parent)
    && (p.pc.ReparentWake? || p'.pc.ReparentWake? ==> p'.pc == p.pc)
  }

  predicate WaitLockSame(s: Kernel, s': Kernel) {
    || s'.waitLock == s.waitLock || !s.waitLock.Thread?
    || (s.waitLock.i < |s.procs| && !s.procs[s.waitLock.i].pc.ReparentWake?)
  }

  lemma {:induction false} WaitFrame(s: Kernel, s': Kernel, i: nat, j: nat)
    requires WaitOk(s) && Others(s, s', i, j)
    ensures WaitLockSame(s, s') && WaitSame(s.procs[i], s'.procs[i]) && WaitSame(s.procs[j], s'.procs[j]) ==> WaitOk(s')
  {
    hide Waits;
  }

  predicate HolderSame(p: Proc, p': Proc) {
    && (Waits(p') ==> Waits(p)) && (p'.state == ZOMBIE ==> p.state == ZOMBIE) && p'.parent == p.parent
    && (HoldsWait(p.pc) || HoldsWait(p'.pc) ==> p'.pc == p.pc || p'.pc.SleepEnter? || p'.pc.SleepLocked?)
  }

  lemma {:induction false} WaitLockFrame(s: Kernel, s': Kernel, i: nat, j: nat)
    requires WaitLockOk(s) && SpinsOk(s) && Others(s, s', i, j)
    ensures s'.waitLock == s.waitLock && HolderSame(s.procs[i], s'.procs[i]) && HolderSame(s.procs[j], s'.procs[j]) ==>
              WaitLockOk(s')
    ensures s'.waitLock == Nobody ==> WaitLockOk(s')
  {
    hide Waits;
  }

  predicate ParentSame(p: Proc, p': Proc) {
    && (p'.parent == p.parent || p'.parent == Nobody) && (Alive(p.state) ==> Alive(p'.state))
    && (Started(p'.state) ==> p'.parent == p.parent && (Started(p.state) || p.parent.Thread?))
  }

  lemma {:induction false} ParentFrame(s: Kernel, s': Kernel, i: nat, j: nat)
    requires ParentOk(s) && Others(s, s', i, j)
    ensures s.init < |s.procs| && !Exiting(s.procs[s.init].pc) && Alive(s.procs[s.init].state)
    ensures !Exiting(s'.procs[s.init].pc) &&
            ParentSame(s.procs[i], s'.procs[i]) && ParentSame(s.procs[j], s'.procs[j])
            ==> ParentOk(s')
  {
    hide Alive, Exiting, Started;
  }

  predicate PidSame(p: Proc, p': Proc) {
    p'.state == UNUSED || (p'.pid == p.pid && p.state != UNUSED)
  }

  lemma {:induction false} PidFrame(s: Kernel, s': Kernel, i: nat, j: nat)
    requires PidOk(s) && Others(s, s', i, j)
    ensures PidSame(s.procs[i], s'.procs[i]) && PidSame(s.procs[j], s'.procs[j]) && s'.nextpid == s.nextpid ==>
              PidOk(s')
  {
  }

  predicate HistorySame(p: Proc, p': Proc) {
    && p'.pid == p.pid && p'.xstate == p.xstate
    && (p'.state == UNUSED <==> p.state == UNUSED) && (p'.state == ZOMBIE <==> p.state == ZOMBIE)
  }

  predicate SameHistory(s: Kernel, s': Kernel) {
    s'.nextpid == s.nextpid && s'.exited == s.exited && s'.reaped == s.reaped
  }

  lemma {:induction false} HistoryFrame(s: Kernel, s': Kernel, i: nat, j: nat)
    requires HistoryOk(s) && Others(s, s', i, j)
    ensures HistorySame(s.procs[i], s'.procs[i]) && HistorySame(s.procs[j], s'.procs[j]) && SameHistory(s, s') ==>
              HistoryOk(s')
  {
  }

  predicate ForkSame(p: Proc, p': Proc) {
    && (Forking(p'.pc) ==> Core(p'.pc) == Core(p.pc))
    && (p.state == USED ==> p'.state == USED && p'.forker == p.forker && (p.parent.Thread? ==> p'.parent == p.parent))
  }

  lemma {:induction false} ForkFrame(s: Kernel, s': Kernel, i: nat, j: nat)
    requires ForkOk(s) && Others(s, s', i, j)
    ensures ForkSame(s.procs[i], s'.procs[i]) && ForkSame(s.procs[j], s'.procs[j]) ==> ForkOk(s')
  {
  }

  /** All frames at once: each part of the invariant that the change does not concern is kept. */
  lemma {:induction false} Frames(s: Kernel, s': Kernel, i: nat, j: nat)
    requires Inv(s) && Others(s, s', i, j)
    ensures Local(i, s'.procs[i], s') && Local(j, s'.procs[j], s') ==> LocalOk(s')
    ensures s'.cpus == s.cpus && CpuSame(s.procs[i], s'.procs[i]) && CpuSame(s.procs[j], s'.procs[j]) ==> CpuOk(s')
    ensures s'.waitLock == s.waitLock && s'.locks == s.locks &&
            SpinSame(s.procs[i], s'.procs[i]) && SpinSame(s.procs[j], s'.procs[j])
            ==> SpinsOk(s')
    ensures LocksHeldSame(s, s') && HeldSame(s.procs[i], s'.procs[i]) && HeldSame(s.procs[j], s'.procs[j]) ==>
              HeldOk(s')
    ensures LocksSleepSame(s, s') && SleepSame(s.procs[i], s'.procs[i]) && SleepSame(s.procs[j], s'.procs[j]) ==>
              SleepOk(s')
    ensures WaitLockSame(s, s') && WaitSame(s.procs[i], s'.procs[i]) && WaitSame(s.procs[j], s'.procs[j]) ==> WaitOk(s')
    ensures s'.waitLock == s.waitLock && HolderSame(s.procs[i], s'.procs[i]) && HolderSame(s.procs[j], s'.procs[j]) ==>
              WaitLockOk(s')
    ensures s'.waitLock == Nobody ==> WaitLockOk(s')
    ensures s.init < |s.procs| && !Exiting(s.procs[s.init].pc) && Alive(s.procs[s.init].state)
    ensures !Exiting(s'.procs[s.init].pc) &&
            ParentSame(s.procs[i], s'.procs[i]) && ParentSame(s.procs[j], s'.procs[j])
            ==> ParentOk(s')
    ensures PidSame(s.procs[i], s'.procs[i]) && PidSame(s.procs[j], s'.procs[j]) && s'.nextpid == s.nextpid ==>
              PidOk(s')
    ensures HistorySame(s.procs[i], s'.procs[i]) && HistorySame(s.procs[j], s'.procs[j]) && SameHistory(s, s') ==>
              HistoryOk(s')
    ensures ForkSame(s.procs[i], s'.procs[i]) && ForkSame(s.procs[j], s'.procs[j]) ==> ForkOk(s')
  {
    hide LocalOk, CpuOk, SpinsOk, HeldOk, SleepOk, WaitOk, WaitLockOk, ParentOk, PidOk, HistoryOk, ForkOk,
      Others, Local, CpuSame, SpinSame, HeldSame, SleepSame, WaitSame, HolderSame, ParentSame, PidSame,
      HistorySame, ForkSame,
      LocksHeldSame, LocksSleepSame, WaitLockSame, Exiting;
    CpuFrame(s, s', i, j);
    SpinsFrame(s, s', i, j);
    HeldFrame(s, s', i, j);
    SleepFrame(s, s', i, j);
    WaitFrame(s, s', i, j);
    WaitLockFrame(s, s', i, j);
    ParentFrame(s, s', i, j);
    PidFrame(s, s', i, j);
    HistoryFrame(s, s', i, j);
    ForkFrame(s, s', i, j);
    LocalFrame(s, s', i, j);
  }

  // ----- changes that concern one part of the invariant ---------------------------------------

  lemma {:induction false} CpuDispatch(s: Kernel, s': Kernel, c: nat, i: nat)
    requires CpuOk(s) && Others(s, s', i, i) && c < |s.cpus| && s.cpus[c] == Nobody && !OnCpu(s.procs[i].pc)
    requires s'.cpus == s.cpus[c := Thread(i)] && OnCpu(s'.procs[i].pc) && s'.procs[i].cpu == c
    ensures CpuOk(s')
  {
    hide OnCpu;
  }

  lemma {:induction false} CpuSwitch(s: Kernel, s': Kernel, c: nat, i: nat)
    requires CpuOk(s) && Others(s, s', i, i) && c < |s.cpus| && s.cpus[c] == Thread(i)
    requires s'.cpus == s.cpus[c := Nobody] && !OnCpu(s'.procs[i].pc)
    ensures CpuOk(s')
  {
    hide OnCpu;
  }

  /** At pc exactly the lock lk is held (of wait_lock and the sleep locks' spinlocks). */
  predicate HoldsOnly(pc: Pc, lk: Spin) {
    if lk.WaitLock? then HoldsWait(pc) && SpinHeld(pc) == -1 else !HoldsWait(pc) && SpinHeld(pc) == lk.k
  }

  predicate HoldsNone(pc: Pc) {
    !HoldsWait(pc) && SpinHeld(pc) == -1
  }

  /** Lock lk went to w, no other lock changed hands. */
  ghost predicate SpinOnly(s: Kernel, s': Kernel, lk: Spin, w: Who) {
    && |s'.locks| == |s.locks| && SpinOk(s, lk)
    && s'.waitLock == (if lk.WaitLock? then w else s.waitLock)
    && forall k :: 0 <= k < |s.locks| ==> s'.locks[k].spin == if lk.LockOf? && lk.k == k then w else s.locks[k].spin
  }

  lemma {:induction false} SpinsTake(s: Kernel, s': Kernel, i: nat, lk: Spin)
    requires SpinsOk(s) && Others(s, s', i, i) && SpinOnly(s, s', lk, Thread(i)) && FreeSpin(s, lk)
    requires HoldsNone(s.procs[i].pc) && HoldsOnly(s'.procs[i].pc, lk)
    ensures SpinsOk(s')
  {
    hide HoldsWait, SpinHeld;
  }

  lemma {:induction false} SpinsDrop(s: Kernel, s': Kernel, i: nat, j: nat, lk: Spin)
    requires SpinsOk(s) && Others(s, s', i, j) && SpinOnly(s, s', lk, Nobody)
    requires (i == j || SpinSame(s.procs[j], s'.procs[j]))
    requires HoldsOnly(s.procs[i].pc, lk) && HoldsNone(s'.procs[i].pc)
    ensures SpinsOk(s')
  {
    hide HoldsWait, SpinHeld;
  }

  /** Who holds the spinlock of lock k is the only one to change it. */
  lemma {:induction false} SpinMine(s: Kernel, i: nat)
    requires SpinsOk(s) && i < |s.procs|
    ensures HoldsWait(s.procs[i].pc) ==> s.waitLock == Thread(i)
    ensures SpinHeld(s.procs[i].pc) >= 0 ==>
              SpinHeld(s.procs[i].pc) < |s.locks| && s.locks[SpinHeld(s.procs[i].pc)].spin == Thread(i)
  {
    hide HoldsWait, SpinHeld;
  }

  /** No lock changed hands, whatever became of what it guards. */
  lemma {:induction false} SpinsStay(s: Kernel, s': Kernel, i: nat)
    requires SpinsOk(s) && Others(s, s', i, i) && SpinSame(s.procs[i], s'.procs[i]) && s'.waitLock == s.waitLock
    requires forall k :: 0 <= k < |s.locks| ==> s'.locks[k].spin == s.locks[k].spin
    ensures SpinsOk(s')
  {
    hide HoldsWait, SpinHeld;
  }

  lemma {:induction false} LockedNotReady(s: Kernel, k: nat)
    requires HeldOk(s) && k < |s.locks| && s.locks[k].locked
    ensures 0 !in s.locks[k].ready
  {
  }

  lemma {:induction false} HeldTake(s: Kernel, s': Kernel, i: nat, k: nat)
    requires HeldOk(s) && Others(s, s', i, i) && k < |s.locks| && !s.locks[k].locked
    requires s'.locks == s.locks[k := Monitor(Nobody, s.locks[k].ready - {0}, true, s.procs[i].pid, i)]
    requires s'.procs[i].held == s.procs[i].held + {k} && s'.procs[i].pid == s.procs[i].pid
    ensures HeldOk(s')
  {
  }

  lemma {:induction false} HeldDrop(s: Kernel, s': Kernel, i: nat, k: nat, w: Who)
    requires HeldOk(s) && Others(s, s', i, i) && k in s.procs[i].held && k < |s.locks|
    requires s'.locks == s.locks[k := Monitor(w, s.locks[k].ready + {0}, false, 0, 0)]
    requires s'.procs[i].held == s.procs[i].held - {k} && s'.procs[i].pid == s.procs[i].pid
    ensures HeldOk(s')
  {
  }

  /** The condition does not hold, so the process may sleep. */
  lemma {:induction false} SleepStart(s: Kernel, s': Kernel, i: nat, c: Chan)
    requires SleepOk(s) && Others(s, s', i, i) && s'.locks == s.locks
    requires c.LockChan? && c.k < |s.locks| && c.ch !in s.locks[c.k].ready && Sought(s'.procs[i]) == c
    requires !Wakes(s'.procs[i].pc) && (Wakes(s.procs[i].pc) ==> s.procs[i].pc.Inside? && s.procs[i].pc.owed == {})
    ensures SleepOk(s')
  {
    hide Sought;
  }

  lemma {:induction false} WakerAwake(p: Proc)
    requires !(p.pc.SleepEnter? || p.pc.SleepLocked? || p.pc.SleepMark? || p.pc.SwSleep? || p.pc.Asleep?)
    ensures Sought(p) == NoChan && !Waits(p)
  {
  }

  /** Conditions come to hold, and the one who holds the lock owes the wakeups. */
  lemma {:induction false} SleepChange(s: Kernel, s': Kernel, i: nat, k: nat)
    requires SleepOk(s) && Others(s, s', i, i) && k < |s.locks| && s.locks[k].spin in {Nobody, Thread(i)}
    requires forall k' :: 0 <= k' < |s.locks| && k' != k ==> s'.locks[k'] == s.locks[k']
    requires s'.locks[k].spin == Thread(i) && (Wakes(s.procs[i].pc) ==> s.procs[i].pc.k == k) && Wakes(s'.procs[i].pc)
    requires forall ch: nat, x: nat {:trigger Due(s'.procs[i].pc, k, ch, x)} ::
               x < |s.procs| && ch in s'.locks[k].ready && (ch !in s.locks[k].ready || Due(s.procs[i].pc, k, ch, x))
               ==> Due(s'.procs[i].pc, k, ch, x)
    ensures SleepOk(s')
  {
    hide Sought, Due;
    WakerAwake(s'.procs[i]);
    forall x | 0 <= x < |s.procs| && Sought(s'.procs[x]).LockChan? ensures SoughtOk(s', Sought(s'.procs[x]), x) {
      var c := Sought(s.procs[x]);
      assert SoughtOk(s, c, x);
      if c.k == k {
        assert c.ch in s'.locks[k].ready ==> Due(s'.procs[i].pc, k, c.ch, x);
      } else if c.ch in s.locks[c.k].ready {
        OnlyMine(s, i, k, c, x);
      }
    }
  }

  /** A process inside lock k owes nothing under another. */
  lemma {:induction false} OnlyMine(s: Kernel, i: nat, k: nat, c: Chan, x: nat)
    requires c.LockChan? && i < |s.procs| && (Wakes(s.procs[i].pc) ==> s.procs[i].pc.k == k) && c.k < |s.locks|
    requires c.k != k
    requires Pending(s, c.k, c.ch, x)
    ensures s.locks[c.k].spin != Thread(i)
  {
  }

  /** wakeup has dealt with process j. */
  lemma {:induction false} SleepWake(s: Kernel, s': Kernel, i: nat, j: nat)
    requires SleepOk(s) && Others(s, s', i, j) && s'.locks == s.locks && s.procs[i].pc.Signal?
    requires var pc := s.procs[i].pc;
             && pc.j == j && s'.procs[i].pc == Signal(pc.k, pc.owed, pc.ch, j + 1)
             && Sought(s'.procs[j]) != LockChan(pc.k, pc.ch)
    requires i != j ==> SleepSame(s.procs[j], s'.procs[j])
    ensures SleepOk(s')
  {
    hide Sought;
    WakerAwake(s'.procs[i]);
  }

  /** With every wakeup done, the lock may go. */
  lemma {:induction false} SleepLeave(s: Kernel, s': Kernel, i: nat, k: nat)
    requires SleepOk(s) && Others(s, s', i, i) && k < |s.locks| && s.locks[k].spin == Thread(i)
    requires s.procs[i].pc == Inside(k, {}) && s'.procs[i].pc == Ready
    requires s'.locks == s.locks[k := s.locks[k].(spin := Nobody)]
    ensures SleepOk(s')
  {
    hide Sought;
    WakerAwake(s'.procs[i]);
  }

  /** Where a scan under wait_lock starts, and after it, there is nothing to know. */
  lemma {:induction false} HolderStart(s: Kernel, i: nat)
    requires s.waitLock == Thread(i) && i < |s.procs|
    requires
      || (s.procs[i].pc.WaitScan? && s.procs[i].pc.j == 0) || (s.procs[i].pc.Reparent? && s.procs[i].pc.j == 0)
      || s.procs[i].pc.SleepEnter? || s.procs[i].pc.ExitZombie?
    ensures WaitLockOk(s)
  {
  }

  /** wait has looked at process j. */
  lemma {:induction false} HolderScanned(s: Kernel, s': Kernel, i: nat, j: nat, kids: bool, kids': bool)
    requires WaitLockOk(s) && Others(s, s', i, i) && s'.waitLock == s.waitLock == Thread(i) && j < |s.procs|
    requires (kids ==> kids')
    requires s.procs[i].pc == WaitScan(j, kids) && s'.procs[i].pc == WaitScan(j + 1, kids')
    requires s'.procs[i].parent == s.procs[i].parent && s'.procs[i].state == s.procs[i].state
    requires s.procs[j].parent == Thread(i) ==> s.procs[j].state != ZOMBIE && kids'
    ensures WaitLockOk(s')
  {
    assert HolderOk(s, i);
  }

  /** reparent has dealt with process j: it is not a child, or it has just been given away. */
  lemma {:induction false} HolderReparented(s: Kernel, s': Kernel, i: nat, j: nat)
    requires WaitLockOk(s) && Others(s, s', i, j) && s'.waitLock == s.waitLock == Thread(i)
    requires s.procs[i].pc.Reparent? && s.procs[i].pc.j == j && s'.procs[j].parent != Thread(i)
    requires i != j ==> s'.procs[i].parent == s.procs[i].parent
    requires
      || (s'.procs[i].pc.Reparent? && s'.procs[i].pc.j == j + 1)
      || (s'.procs[i].pc.ReparentWake? && s'.procs[i].pc.j == j)
    ensures WaitLockOk(s')
  {
    assert HolderOk(s, i);
  }

  /** Between reparenting j and the next process, and before wakeup(p->parent), parents do not change. */
  lemma {:induction false} HolderSteps(s: Kernel, s': Kernel, i: nat, j: nat)
    requires WaitLockOk(s) && Others(s, s', i, j) && s'.waitLock == s.waitLock == Thread(i)
    requires s'.procs[i].parent == s.procs[i].parent && s'.procs[j].parent == s.procs[j].parent
    requires
      || (s.procs[i].pc.ReparentWake? && s'.procs[i].pc.ReparentWake? && s'.procs[i].pc.j == s.procs[i].pc.j)
      || (s.procs[i].pc.ReparentWake? && s'.procs[i].pc.Reparent? && s'.procs[i].pc.j == s.procs[i].pc.j + 1)
      || (s.procs[i].pc.Reparent? && s.procs[i].pc.j >= |s.procs| && s'.procs[i].pc.ExitWake? && s'.procs[i].pc.k == 0)
    ensures WaitLockOk(s')
  {
    assert HolderOk(s, i);
  }

  /** wakeup(p->parent) has dealt with process k. */
  lemma {:induction false} HolderWoke(s: Kernel, s': Kernel, i: nat, k: nat)
    requires WaitLockOk(s) && Others(s, s', i, k) && s'.waitLock == s.waitLock == Thread(i)
    requires s'.procs[i].parent == s.procs[i].parent && s'.procs[k].parent == s.procs[k].parent
    requires s.procs[i].pc.ExitWake? && s.procs[i].pc.k == k && s'.procs[i].pc == ExitWake(s.procs[i].pc.status, k + 1)
    requires s.procs[i].parent == Thread(k) ==> !Waits(s'.procs[k])
    ensures WaitLockOk(s')
  {
    hide Waits;
    assert HolderOk(s, i);
    WakerAwake(s'.procs[i]);
  }

  lemma {:induction false} HolderAt(s: Kernel, i: nat)
    requires WaitLockOk(s) && s.waitLock == Thread(i) && i < |s.procs|
    ensures HolderOk(s, i)
  {
  }

  /** wait goes to sleep having seen no zombie child. */
  lemma {:induction false} WaitSleeps(s: Kernel, s': Kernel, i: nat)
    requires WaitOk(s) && HolderAtEnd(s, i) && Others(s, s', i, i) && s'.waitLock == s.waitLock == Thread(i)
    requires s'.procs[i].parent == s.procs[i].parent && s'.procs[i].state == s.procs[i].state
    ensures WaitOk(s')
  {
    hide Waits;
  }

  ghost predicate HolderAtEnd(s: Kernel, i: nat) {
    i < |s.procs| && s.procs[i].pc.WaitScan? && s.procs[i].pc.j >= |s.procs| && HolderOk(s, i)
  }

  /** reparent gives j to init, and is about to wake init. */
  lemma {:induction false} WaitReparents(s: Kernel, s': Kernel, i: nat, j: nat)
    requires WaitOk(s) && Others(s, s', i, j) && s'.waitLock == s.waitLock == Thread(i) && s.procs[i].pc.Reparent?
    requires s'.procs[i].pc.ReparentWake? && s'.procs[i].pc.k == 0 && s'.procs[i].state != ZOMBIE
    requires s'.procs[j].parent == Thread(s.init) && (Waits(s'.procs[j]) ==> Waits(s.procs[j]))
    ensures WaitOk(s')
  {
    hide Waits;
    WakerAwake(s'.procs[i]);
    forall x, y | 0 <= x < |s.procs| && 0 <= y < |s.procs| && Waits(s'.procs[x]) && ZombieOf(s'.procs[y], x)
      ensures InitWaking(s', x)
    {
      if y != j {
        assert Waits(s.procs[x]) && ZombieOf(s.procs[y], x);
        assert InitWaking(s, x);
      }
    }
  }

  /** reparent's wakeup has dealt with process k. */
  lemma {:induction false} WaitWakes(s: Kernel, s': Kernel, i: nat, k: nat)
    requires WaitOk(s) && Others(s, s', i, k) && s'.waitLock == s.waitLock == Thread(i)
    requires s.procs[i].pc.ReparentWake? && s.procs[i].pc.k == k
    requires s'.procs[i].pc == ReparentWake(s.procs[i].pc.status, s.procs[i].pc.j, k + 1) && s'.procs[i].state != ZOMBIE
    requires k != i ==> (Waits(s'.procs[k]) ==> Waits(s.procs[k])) && s'.procs[k].parent == s.procs[k].parent &&
                        (s'.procs[k].state == ZOMBIE ==> s.procs[k].state == ZOMBIE)
    requires k == s.init ==> !Waits(s'.procs[k])
    ensures WaitOk(s')
  {
    hide Waits;
    WakerAwake(s'.procs[i]);
    forall x, y | 0 <= x < |s.procs| && 0 <= y < |s.procs| && Waits(s'.procs[x]) && ZombieOf(s'.procs[y], x)
      ensures InitWaking(s', x)
    {
      assert Waits(s.procs[x]) && ZombieOf(s.procs[y], x);
      assert InitWaking(s, x);
    }
  }

  lemma {:induction false} WaitWoken(s: Kernel, s': Kernel, i: nat)
    requires WaitOk(s) && Others(s, s', i, i) && s'.waitLock == s.waitLock == Thread(i)
    requires s.procs[i].pc.ReparentWake? && s.procs[i].pc.k >= |s.procs| && s'.procs[i].pc.Reparent?
    requires s'.procs[i].state != ZOMBIE
    ensures WaitOk(s')
  {
    hide Waits;
    WakerAwake(s'.procs[i]);
  }

  /** A process turns ZOMBIE: its parent, if asleep in wait, has been woken before. */
  lemma {:induction false} WaitZombie(s: Kernel, s': Kernel, i: nat)
    requires WaitOk(s) && Others(s, s', i, i) && s'.waitLock == s.waitLock == Thread(i)
    requires s.procs[i].pc.ExitWake? && s.procs[i].pc.k >= |s.procs| && HolderOk(s, i)
    requires s'.procs[i].pc.ExitZombie? && s'.procs[i].parent == s.procs[i].parent
    ensures WaitOk(s')
  {
    hide Waits;
    WakerAwake(s'.procs[i]);
    WakerAwake(s.procs[i]);
  }

  lemma {:induction false} ParentMoved(s: Kernel, s': Kernel, i: nat, j: nat)
    requires ParentOk(s) && Others(s, s', i, j) && !Exiting(s'.procs[s.init].pc)
    requires Alive(s'.procs[i].state) && (Alive(s.procs[j].state) ==> Alive(s'.procs[j].state))
    requires i != j ==> s'.procs[i].parent == s.procs[i].parent
    requires s'.procs[j].parent == Thread(s.init) || s'.procs[j].parent == Thread(i)
    requires Started(s'.procs[i].state) ==> Started(s.procs[i].state)
    ensures ParentOk(s')
  {
    hide Alive, Exiting, Started;
  }

  lemma {:induction false} ParentZombie(s: Kernel, s': Kernel, i: nat)
    requires ParentOk(s) && Others(s, s', i, i) && i != s.init && NoChildBelow(s, i, |s.procs|)
    requires s'.procs[i].parent == s.procs[i].parent && Started(s.procs[i].state)
    ensures ParentOk(s')
  {
    hide Alive, Exiting, Started;
    assert s'.procs[i].parent != Thread(i);
  }

  lemma {:induction false} PidFork(s: Kernel, s': Kernel, i: nat, np: nat)
    requires PidOk(s) && Others(s, s', i, np) && i != np && PidSame(s.procs[i], s'.procs[i])
    requires s.procs[i].state != UNUSED
    requires s'.procs[np].pid == s.nextpid && s'.nextpid == s.nextpid + 1
    ensures PidOk(s')
  {
  }

  lemma {:induction false} HistoryFork(s: Kernel, s': Kernel, i: nat, np: nat)
    requires HistoryOk(s) && Others(s, s', i, np) && i != np && HistorySame(s.procs[i], s'.procs[i])
    requires s'.procs[np].pid == s.nextpid && s'.procs[np].state == USED
    requires s'.nextpid == s.nextpid + 1 && s'.exited == s.exited && s'.reaped == s.reaped
    ensures HistoryOk(s')
  {
  }

  lemma {:induction false} HistoryExit(s: Kernel, s': Kernel, i: nat, status: int)
    requires HistoryOk(s) && PidOk(s) && Others(s, s', i, i) && s.procs[i].state != UNUSED && s.procs[i].state != ZOMBIE
    requires s'.procs[i].pid == s.procs[i].pid && s'.procs[i].state == ZOMBIE && s'.procs[i].xstate == status
    requires s'.nextpid == s.nextpid && s'.exited == s.exited[s.procs[i].pid := status] && s'.reaped == s.reaped
    ensures HistoryOk(s')
  {
  }

  lemma {:induction false} HistoryReap(s: Kernel, s': Kernel, i: nat, j: nat)
    requires HistoryOk(s) && PidOk(s) && Others(s, s', i, j) && i != j && HistorySame(s.procs[i], s'.procs[i])
    requires s.procs[i].state != ZOMBIE
    requires s.procs[j].state == ZOMBIE && s'.procs[j].state == UNUSED
    requires s'.nextpid == s.nextpid && s'.exited == s.exited
    requires s'.reaped == s.reaped + [Reap(s.procs[j].pid, s.procs[j].xstate, i)]
    ensures HistoryOk(s')
  {
  }

  lemma {:induction false} ForkNew(s: Kernel, s': Kernel, i: nat, np: nat)
    requires ForkOk(s) && Others(s, s', i, np) && i != np && s.procs[np].state != USED && s.procs[i].state != USED
    requires s'.procs[i].pc == ForkParent(np) && s'.procs[np].state == USED && s'.procs[np].forker == i
    requires !Forking(s'.procs[np].pc)
    ensures ForkOk(s')
  {
  }

  lemma {:induction false} ForkDone(s: Kernel, s': Kernel, i: nat, np: nat)
    requires ForkOk(s) && Others(s, s', i, np) && i != np && s.procs[i].pc == ForkRun(np) && s.procs[i].state != USED
    requires !Forking(s'.procs[i].pc) && !Forking(s'.procs[np].pc)
    ensures ForkOk(s')
  {
  }

  lemma {:induction false} ForkLinked(s: Kernel, s': Kernel, i: nat, np: nat)
    requires ForkOk(s) && Others(s, s', i, np) && i != np && s.procs[i].pc == ForkParent(np) && s.procs[i].state != USED
    requires s'.procs[i].pc == ForkRun(np) && !Forking(s'.procs[np].pc) && s'.procs[np].parent == Thread(i)
    requires s'.procs[np].state == USED && s'.procs[np].forker == s.procs[np].forker
    ensures ForkOk(s')
  {
  }

  /** A child that is still in fork is not an exiting process's. */
  lemma {:induction false} ForkReparented(s: Kernel, s': Kernel, i: nat, j: nat)
    requires ForkOk(s) && Others(s, s', i, j) && s.procs[j].parent == Thread(i)
    requires !Forking(s.procs[i].pc) && !Forking(s'.procs[i].pc) && (i != j ==> s'.procs[j].pc == s.procs[j].pc)
    requires s'.procs[j].state == s.procs[j].state && s'.procs[j].forker == s.procs[j].forker
    requires s'.procs[i].state == s.procs[i].state && s'.procs[i].forker == s.procs[i].forker
    requires i != j ==> s'.procs[i].parent == s.procs[i].parent
    ensures ForkOk(s')
  {
  }

  lemma {:induction false} ForkAt(s: Kernel, i: nat)
    requires ForkOk(s) && LocalOk(s) && i < |s.procs| && (s.procs[i].pc.ForkParent? || s.procs[i].pc.ForkRun?)
    ensures var np := s.procs[i].pc.np;
            np < |s.procs| && np != i && s.procs[np].state == USED && s.procs[np].forker == i
    ensures s.procs[i].pc.ForkRun? ==> s.procs[s.procs[i].pc.np].parent == Thread(i)
  {
    hide LocalOk;
    LocalAt(s, i);
  }

  /** The control points of a running process that does not hold its own lock. */
  predicate Plain(pc: Pc) {
    && OnCpu(pc)
    && !(pc.SwYield? || pc.SwSleep? || pc.ExitZombie? || pc.SwExit? || pc.Resume? || pc.SleepBack?)
    && !(pc.SleepLocked? || pc.SleepMark?)
  }

  /** A process goes from one such point to another. */
  lemma {:induction false} LocalGoto(s: Kernel, s': Kernel, i: nat)
    requires LocalOk(s) && i < |s.procs| == |s'.procs| && |s'.locks| == |s.locks| && (s.zeroed ==> s'.zeroed)
    requires s'.procs[i] == s.procs[i].(pc := s'.procs[i].pc) && Plain(s.procs[i].pc) && Plain(s'.procs[i].pc)
    requires PcOk(s.procs[i].pc, |s.procs|, |s.locks|) ==> PcOk(s'.procs[i].pc, |s.procs|, |s.locks|)
    requires Exiting(s'.procs[i].pc) ==> Exiting(s.procs[i].pc) || s.procs[i].held == {}
    requires s'.procs[i].pc.KillScan? && s'.procs[i].pc.pid == 0 ==>
               s'.zeroed || (s.procs[i].pc.KillScan? && s.procs[i].pc.pid == 0)
    ensures Local(i, s'.procs[i], s') && s.procs[i].state == RUNNING && !s.procs[i].lock
    ensures PcOk(s.procs[i].pc, |s.procs|, |s.locks|)
    ensures CpuSame(s.procs[i], s'.procs[i]) && HeldSame(s.procs[i], s'.procs[i]) && ParentSame(s.procs[i], s'.procs[i])
    ensures PidSame(s.procs[i], s'.procs[i]) && HistorySame(s.procs[i], s'.procs[i])
  {
    LocalAt(s, i);
    hide LocalOk, PcOk;
  }

  /** wakeup does to process j what no other part of the invariant minds. */
  lemma {:induction false} LocalWoken(s: Kernel, s': Kernel, j: nat, chan: Chan)
    requires LocalOk(s) && j < |s.procs| == |s'.procs| && |s'.locks| == |s.locks| && (s.zeroed ==> s'.zeroed)
    requires s'.procs[j] == Woken(s.procs[j], chan) && !s.procs[j].lock
    ensures Local(j, s'.procs[j], s')
    ensures CpuSame(s.procs[j], s'.procs[j]) && HeldSame(s.procs[j], s'.procs[j]) && ParentSame(s.procs[j], s'.procs[j])
    ensures PidSame(s.procs[j], s'.procs[j]) && HistorySame(s.procs[j], s'.procs[j])
    ensures SpinSame(s.procs[j], s'.procs[j]) && SleepSame(s.procs[j], s'.procs[j]) && WaitSame(s.procs[j], s'.procs[j])
    ensures HolderSame(s.procs[j], s'.procs[j]) && ForkSame(s.procs[j], s'.procs[j])
    ensures Sought(s'.procs[j]) == chan && chan.LockChan? ==> SpinHeld(s.procs[j].pc) == chan.k
    ensures Waits(s'.procs[j]) && chan == ProcChan(j) ==> HoldsWait(s.procs[j].pc)
  {
    LocalAt(s, j);
    hide LocalOk, PcOk;
  }

  /** A process that neither sleeps nor wakes others goes on. */
  lemma {:induction false} AwakeGoto(p: Proc, p': Proc)
    requires p' == p.(pc := p'.pc) && Awake(p.pc) && Awake(p'.pc) && !p'.pc.SleepEnter? && p.state == RUNNING
    ensures SleepSame(p, p') && WaitSame(p, p')
    ensures HoldsNone(p.pc) && HoldsNone(p'.pc) ==> SpinSame(p, p') && HolderSame(p, p')
  {
    hide HoldsWait, SpinHeld;
  }

  predicate Awake(pc: Pc) {
    Plain(pc) && !Wakes(pc) && !pc.ReparentWake? && !pc.SleepEnter?
  }

  /** The scans of exit. */
  predicate ExitScan(pc: Pc) {
    pc.Reparent? || pc.ReparentWake? || pc.ExitWake?
  }

  lemma {:induction false} ExitGoto(p: Proc, p': Proc)
    requires p' == p.(pc := p'.pc) && ExitScan(p.pc) && ExitScan(p'.pc) && p.state == RUNNING
    ensures SpinSame(p, p') && SleepSame(p, p') && ForkSame(p, p')
    ensures p.pc.ExitWake? && p'.pc.ExitWake? ==> WaitSame(p, p')
  {
  }

  lemma {:induction false} SignalGoto(p: Proc, p': Proc)
    requires p' == p.(pc := p'.pc) && Wakes(p.pc) && Wakes(p'.pc) && p.pc.k == p'.pc.k && p.state == RUNNING
    ensures SpinSame(p, p') && WaitSame(p, p') && HolderSame(p, p') && ForkSame(p, p')
  {
  }

  /** Parts of the invariant that only look at a few fields. */
  lemma {:induction false} FieldsSame(p: Proc, p': Proc)
    requires p'.state == p.state && p'.held == p.held && p'.pid == p.pid && p'.xstate == p.xstate && p'.cpu == p.cpu
    requires OnCpu(p'.pc) == OnCpu(p.pc)
    ensures CpuSame(p, p') && HeldSame(p, p') && PidSame(p, p') && HistorySame(p, p')
    ensures p'.parent == p.parent ==> ParentSame(p, p')
  {
  }

  /** sleep lets go of its lock. */
  lemma {:induction false} LocalSleepLocked(s: Kernel, i: nat)
    requires LocalOk(s) && CanSleepLocked(s, i)
    ensures var s' := SleepLockedEffect(s, i);
            && Local(i, s'.procs[i], s') && SleepSame(s.procs[i], s'.procs[i]) && WaitSame(s.procs[i], s'.procs[i])
            && ForkSame(s.procs[i], s'.procs[i])
            && (s.procs[i].pc.lk.LockOf? ==> HolderSame(s.procs[i], s'.procs[i]))
  {
    hide LocalOk;
    LocalAt(s, i);
  }

  /** A slot whose process does not run, before and after. */
  predicate Idle(p: Proc) {
    (p.pc.Free? || p.pc.New? || p.pc.Gone?) && p.held == {}
  }

  lemma {:induction false} IdleChange(p: Proc, p': Proc)
    requires Idle(p) && Idle(p')
    ensures CpuSame(p, p') && SpinSame(p, p') && HeldSame(p, p') && SleepSame(p, p')
    ensures p'.state == ZOMBIE || WaitSame(p, p')
    ensures p'.parent == p.parent && p'.state != ZOMBIE ==> HolderSame(p, p')
    ensures p.state != USED ==> ForkSame(p, p')
  {
  }

  lemma {:induction false} LocalAt(s: Kernel, i: nat)
    requires LocalOk(s) && i < |s.procs|
    ensures Local(i, s.procs[i], s)
  {
    hide Local;
  }

  // ----- scheduling, sleep and sleep locks ----------------------------------------------------

  lemma {:induction false} StepResume(s: Kernel, i: nat)
    requires Inv(s) && CanResume(s, i)
    ensures Inv(ResumeEffect(s, i))
  {
    hide LocalOk, CpuOk, SpinsOk, HeldOk, SleepOk, WaitOk, WaitLockOk, ParentOk, PidOk, HistoryOk, ForkOk;
    var s' := ResumeEffect(s, i);
    LocalAt(s, i);
    Frames(s, s', i, i);
  }

  lemma {:induction false} StepYield(s: Kernel, i: nat)
    requires Inv(s) && CanYield(s, i)
    ensures Inv(YieldEffect(s, i))
  {
    hide LocalOk, CpuOk, SpinsOk, HeldOk, SleepOk, WaitOk, WaitLockOk, ParentOk, PidOk, HistoryOk, ForkOk;
    var s' := YieldEffect(s, i);
    LocalAt(s, i);
    Frames(s, s', i, i);
  }

  lemma {:induction false} StepKill(s: Kernel, i: nat, pid: int)
    requires Inv(s) && CanKill(s, i)
    ensures Inv(KillEffect(s, i, pid))
  {
    hide LocalOk, CpuOk, SpinsOk, HeldOk, SleepOk, WaitOk, WaitLockOk, ParentOk, PidOk, HistoryOk, ForkOk,
      Local, CpuSame, HeldSame, ParentSame, PidSame, HistorySame;
    var s' := KillEffect(s, i, pid);
    LocalGoto(s, s', i);
    Frames(s, s', i, i);
  }

  /** kill is at the process it looks for. */
  predicate VictimNext(s: Kernel, i: nat)
    requires i < |s.procs| && s.procs[i].pc.KillScan?
  {
    s.procs[i].pc.j < |s.procs| && s.procs[s.procs[i].pc.j].pid == s.procs[i].pc.pid
  }

  lemma {:induction false} StepKillScan(s: Kernel, i: nat)
    requires Inv(s) && CanKillScan(s, i) && !VictimNext(s, i)
    ensures Inv(KillScanEffect(s, i))
  {
    hide LocalOk, CpuOk, SpinsOk, HeldOk, SleepOk, WaitOk, WaitLockOk, ParentOk, PidOk, HistoryOk, ForkOk,
      Local, CpuSame, HeldSame, ParentSame, PidSame, HistorySame;
    var s' := KillScanEffect(s, i);
    LocalGoto(s, s', i);
    Frames(s, s', i, i);
  }

  lemma {:induction false} StepKillFound(s: Kernel, i: nat)
    requires Inv(s) && CanKillScan(s, i) && VictimNext(s, i)
    ensures Inv(KillScanEffect(s, i))
  {
    hide LocalOk, CpuOk, SpinsOk, HeldOk, SleepOk, WaitOk, WaitLockOk, ParentOk, PidOk, HistoryOk, ForkOk, Local;
    var s' := KillScanEffect(s, i);
    var j := s.procs[i].pc.j;
    LocalVictim(s, i);
    Frames(s, s', i, j);
  }

  lemma {:induction false} LocalVictim(s: Kernel, i: nat)
    requires LocalOk(s) && PidOk(s) && CanKillScan(s, i) && VictimNext(s, i)
    ensures var s', j := KillScanEffect(s, i), s.procs[i].pc.j;
            && Local(i, s'.procs[i], s') && Local(j, s'.procs[j], s')
  {
    LocalAt(s, i);
    LocalAt(s, s.procs[i].pc.j);
    hide LocalOk;
  }

  lemma {:induction false} StepSleepEnter(s: Kernel, i: nat)
    requires Inv(s) && CanSleepEnter(s, i)
    ensures Inv(SleepEnterEffect(s, i))
  {
    hide LocalOk, CpuOk, SpinsOk, HeldOk, SleepOk, WaitOk, WaitLockOk, ParentOk, PidOk, HistoryOk, ForkOk;
    var s' := SleepEnterEffect(s, i);
    LocalAt(s, i);
    Frames(s, s', i, i);
  }

  lemma {:induction false} StepSleepMark(s: Kernel, i: nat)
    requires Inv(s) && CanSleepMark(s, i)
    ensures Inv(SleepMarkEffect(s, i))
  {
    hide LocalOk, CpuOk, SpinsOk, HeldOk, SleepOk, WaitOk, WaitLockOk, ParentOk, PidOk, HistoryOk, ForkOk;
    var s' := SleepMarkEffect(s, i);
    LocalAt(s, i);
    Frames(s, s', i, i);
  }

  lemma {:induction false} StepSleepBack(s: Kernel, i: nat)
    requires Inv(s) && CanSleepBack(s, i)
    ensures Inv(SleepBackEffect(s, i))
  {
    hide LocalOk, CpuOk, SpinsOk, HeldOk, SleepOk, WaitOk, WaitLockOk, ParentOk, PidOk, HistoryOk, ForkOk;
    var s' := SleepBackEffect(s, i);
    LocalAt(s, i);
    Frames(s, s', i, i);
  }

  lemma {:induction false} StepDispatch(s: Kernel, c: nat, i: nat)
    requires Inv(s) && CanDispatch(s, c, i)
    ensures Inv(DispatchEffect(s, c, i))
  {
    hide LocalOk, CpuOk, SpinsOk, HeldOk, SleepOk, WaitOk, WaitLockOk, ParentOk, PidOk, HistoryOk, ForkOk;
    var s' := DispatchEffect(s, c, i);
    LocalAt(s, i);
    Frames(s, s', i, i);
    CpuDispatch(s, s', c, i);
  }

  lemma {:induction false} StepSwitchOut(s: Kernel, c: nat)
    requires Inv(s) && CanSwitchOut(s, c)
    ensures Inv(SwitchOutEffect(s, c))
  {
    hide LocalOk, CpuOk, SpinsOk, HeldOk, SleepOk, WaitOk, WaitLockOk, ParentOk, PidOk, HistoryOk, ForkOk;
    var s' := SwitchOutEffect(s, c);
    var i := s.cpus[c].i;
    LocalAt(s, i);
    Frames(s, s', i, i);
    CpuSwitch(s, s', c, i);
  }

  lemma {:induction false} StepAcquire(s: Kernel, i: nat, k: nat)
    requires Inv(s) && CanAcquire(s, i, k)
    ensures Inv(AcquireEffect(s, i, k))
  {
    hide LocalOk, CpuOk, SpinsOk, HeldOk, SleepOk, WaitOk, WaitLockOk, ParentOk, PidOk, HistoryOk, ForkOk,
      Local, CpuSame, HeldSame, ParentSame, PidSame, HistorySame;
    var s' := AcquireEffect(s, i, k);
    LocalGoto(s, s', i);
    Frames(s, s', i, i);
    SpinsTake(s, s', i, LockOf(k, 0));
  }

  lemma {:induction false} StepAcqSleep(s: Kernel, i: nat)
    requires Inv(s) && CanAcqTest(s, i) && s.locks[s.procs[i].pc.k].locked
    ensures Inv(AcqTestEffect(s, i))
  {
    hide LocalOk, CpuOk, SpinsOk, HeldOk, SleepOk, WaitOk, WaitLockOk, ParentOk, PidOk, HistoryOk, ForkOk,
      Local, CpuSame, HeldSame, ParentSame, PidSame, HistorySame;
    var s' := AcqTestEffect(s, i);
    LocalGoto(s, s', i);
    Frames(s, s', i, i);
    LockedNotReady(s, s.procs[i].pc.k);
    SleepStart(s, s', i, LockChan(s.procs[i].pc.k, 0));
  }

  lemma {:induction false} StepAcqTake(s: Kernel, i: nat)
    requires Inv(s) && CanAcqTest(s, i) && !s.locks[s.procs[i].pc.k].locked
    ensures Inv(AcqTestEffect(s, i))
  {
    hide LocalOk, CpuOk, SpinsOk, HeldOk, SleepOk, WaitOk, WaitLockOk, ParentOk, PidOk, HistoryOk, ForkOk;
    var s' := AcqTestEffect(s, i);
    LocalAt(s, i);
    Frames(s, s', i, i);
    var k := s.procs[i].pc.k;
    SpinMine(s, i);
    SpinsDrop(s, s', i, i, LockOf(k, 0));
    HeldTake(s, s', i, k);
  }

  lemma {:induction false} StepRelease(s: Kernel, i: nat, k: nat)
    requires Inv(s) && CanRelease(s, i, k)
    ensures Inv(ReleaseEffect(s, i, k))
  {
    hide LocalOk, CpuOk, SpinsOk, HeldOk, SleepOk, WaitOk, WaitLockOk, ParentOk, PidOk, HistoryOk, ForkOk;
    var s' := ReleaseEffect(s, i, k);
    LocalAt(s, i);
    Frames(s, s', i, i);
    SpinsTake(s, s', i, LockOf(k, 0));
    HeldDrop(s, s', i, k, Thread(i));
    SleepChange(s, s', i, k);
  }

  lemma {:induction false} StepEnter(s: Kernel, i: nat, k: nat)
    requires Inv(s) && CanEnter(s, i, k)
    ensures Inv(EnterEffect(s, i, k))
  {
    hide LocalOk, CpuOk, SpinsOk, HeldOk, SleepOk, WaitOk, WaitLockOk, ParentOk, PidOk, HistoryOk, ForkOk,
      Local, CpuSame, HeldSame, ParentSame, PidSame, HistorySame;
    var s' := EnterEffect(s, i, k);
    LocalGoto(s, s', i);
    Frames(s, s', i, i);
    SpinsTake(s, s', i, LockOf(k, 0));
    SleepChange(s, s', i, k);
  }

  lemma {:induction false} StepChange(s: Kernel, i: nat, ready: set<nat>)
    requires Inv(s) && CanChange(s, i, ready)
    ensures Inv(ChangeEffect(s, i, ready))
  {
    hide LocalOk, CpuOk, SpinsOk, HeldOk, SleepOk, WaitOk, WaitLockOk, ParentOk, PidOk, HistoryOk, ForkOk,
      Local, CpuSame, HeldSame, ParentSame, PidSame, HistorySame;
    var s' := ChangeEffect(s, i, ready);
    LocalGoto(s, s', i);
    SpinMine(s, i);
    Frames(s, s', i, i);
    SpinsStay(s, s', i);
    SleepChange(s, s', i, s.procs[i].pc.k);
  }

  lemma {:induction false} StepSleepOn(s: Kernel, i: nat, ch: nat)
    requires Inv(s) && CanSleepOn(s, i, ch)
    ensures Inv(SleepOnEffect(s, i, ch))
  {
    hide LocalOk, CpuOk, SpinsOk, HeldOk, SleepOk, WaitOk, WaitLockOk, ParentOk, PidOk, HistoryOk, ForkOk,
      Local, CpuSame, HeldSame, ParentSame, PidSame, HistorySame;
    var s' := SleepOnEffect(s, i, ch);
    LocalGoto(s, s', i);
    Frames(s, s', i, i);
    SleepStart(s, s', i, LockChan(s.procs[i].pc.k, ch));
  }

  lemma {:induction false} StepWakeup(s: Kernel, i: nat, ch: nat)
    requires Inv(s) && CanWakeup(s, i)
    ensures Inv(WakeupEffect(s, i, ch))
  {
    hide LocalOk, CpuOk, SpinsOk, HeldOk, SleepOk, WaitOk, WaitLockOk, ParentOk, PidOk, HistoryOk, ForkOk,
      Local, CpuSame, HeldSame, ParentSame, PidSame, HistorySame;
    var s' := WakeupEffect(s, i, ch);
    LocalGoto(s, s', i);
    SpinMine(s, i);
    Frames(s, s', i, i);
    SleepChange(s, s', i, s.procs[i].pc.k);
  }

  lemma {:induction false} StepSignal(s: Kernel, i: nat)
    requires Inv(s) && CanSignal(s, i) && s.procs[i].pc.j < |s.procs|
    ensures Inv(SignalEffect(s, i))
  {
    hide LocalOk, CpuOk, SpinsOk, HeldOk, SleepOk, WaitOk, WaitLockOk, ParentOk, PidOk, HistoryOk, ForkOk,
      Local, CpuSame, HeldSame, ParentSame, PidSame, HistorySame,
      SpinSame, WaitSame, HolderSame, ForkSame;
    var s' := SignalEffect(s, i);
    var j := s.procs[i].pc.j;
    LocalGoto(s, s', i);
    SignalGoto(s.procs[i], s'.procs[i]);
    SpinMine(s, i);
    SpinMine(s, j);
    if j != i {
      LocalWoken(s, s', j, LockChan(s.procs[i].pc.k, s.procs[i].pc.ch));
    }
    Frames(s, s', i, j);
    SleepWake(s, s', i, j);
  }

  lemma {:induction false} StepSignalled(s: Kernel, i: nat)
    requires Inv(s) && CanSignal(s, i) && s.procs[i].pc.j >= |s.procs|
    ensures Inv(SignalEffect(s, i))
  {
    hide LocalOk, CpuOk, SpinsOk, HeldOk, SleepOk, WaitOk, WaitLockOk, ParentOk, PidOk, HistoryOk, ForkOk,
      Local, CpuSame, HeldSame, ParentSame, PidSame, HistorySame;
    var s' := SignalEffect(s, i);
    LocalGoto(s, s', i);
    SpinMine(s, i);
    Frames(s, s', i, i);
    SleepChange(s, s', i, s.procs[i].pc.k);
  }

  lemma {:induction false} StepLeave(s: Kernel, i: nat)
    requires Inv(s) && CanLeave(s, i)
    ensures Inv(LeaveEffect(s, i))
  {
    hide LocalOk, CpuOk, SpinsOk, HeldOk, SleepOk, WaitOk, WaitLockOk, ParentOk, PidOk, HistoryOk, ForkOk,
      Local, CpuSame, HeldSame, ParentSame, PidSame, HistorySame;
    var s' := LeaveEffect(s, i);
    LocalGoto(s, s', i);
    SpinMine(s, i);
    Frames(s, s', i, i);
    SpinsDrop(s, s', i, i, LockOf(s.procs[i].pc.k, 0));
    SleepLeave(s, s', i, s.procs[i].pc.k);
  }

  lemma {:induction false} StepSleepLocked(s: Kernel, i: nat)
    requires Inv(s) && CanSleepLocked(s, i)
    ensures Inv(SleepLockedEffect(s, i))
  {
    hide LocalOk, CpuOk, SpinsOk, HeldOk, SleepOk, WaitOk, WaitLockOk, ParentOk, PidOk, HistoryOk, ForkOk, Local,
      CpuSame, HeldSame, SleepSame, WaitSame, HolderSame, ParentSame, PidSame, HistorySame, ForkSame;
    var s' := SleepLockedEffect(s, i);
    LocalSleepLocked(s, i);
    FieldsSame(s.procs[i], s'.procs[i]);
    Frames(s, s', i, i);
    SpinMine(s, i);
    SpinsDrop(s, s', i, i, s.procs[i].pc.lk);
  }

  lemma {:induction false} StepReacquire(s: Kernel, i: nat)
    requires Inv(s) && CanReacquire(s, i)
    ensures Inv(ReacquireEffect(s, i))
  {
    hide LocalOk, CpuOk, SpinsOk, HeldOk, SleepOk, WaitOk, WaitLockOk, ParentOk, PidOk, HistoryOk, ForkOk,
      Local, CpuSame, HeldSame, ParentSame, PidSame, HistorySame;
    var s' := ReacquireEffect(s, i);
    LocalGoto(s, s', i);
    Frames(s, s', i, i);
    SpinsTake(s, s', i, s.procs[i].pc.lk);
    var lk := s.procs[i].pc.lk;
    if lk.WaitLock? {
      HolderStart(s', i);
    } else if lk.ch != 0 {
      SleepChange(s, s', i, lk.k);
    }
  }

  // ----- exit, wait and fork ---------------------------------------------------------------

  lemma {:induction false} StepExit(s: Kernel, i: nat, status: int)
    requires Inv(s) && CanExit(s, i)
    ensures Inv(ExitEffect(s, i, status))
  {
    hide LocalOk, CpuOk, SpinsOk, HeldOk, SleepOk, WaitOk, WaitLockOk, ParentOk, PidOk, HistoryOk, ForkOk,
      Local, CpuSame, HeldSame, ParentSame, PidSame, HistorySame;
    var s' := ExitEffect(s, i, status);
    LocalGoto(s, s', i);
    Frames(s, s', i, i);
    SpinsTake(s, s', i, WaitLock);
    HolderStart(s', i);
  }

  lemma {:induction false} StepWait(s: Kernel, i: nat)
    requires Inv(s) && CanWait(s, i)
    ensures Inv(WaitEffect(s, i))
  {
    hide LocalOk, CpuOk, SpinsOk, HeldOk, SleepOk, WaitOk, WaitLockOk, ParentOk, PidOk, HistoryOk, ForkOk,
      Local, CpuSame, HeldSame, ParentSame, PidSame, HistorySame;
    var s' := WaitEffect(s, i);
    LocalGoto(s, s', i);
    Frames(s, s', i, i);
    SpinsTake(s, s', i, WaitLock);
    HolderStart(s', i);
  }

  lemma {:induction false} StepExitZombie(s: Kernel, i: nat)
    requires Inv(s) && CanExitZombie(s, i)
    ensures Inv(ExitZombieEffect(s, i))
  {
    hide LocalOk, CpuOk, SpinsOk, HeldOk, SleepOk, WaitOk, WaitLockOk, ParentOk, PidOk, HistoryOk, ForkOk;
    var s' := ExitZombieEffect(s, i);
    LocalAt(s, i);
    Frames(s, s', i, i);
    SpinMine(s, i);
    SpinsDrop(s, s', i, i, WaitLock);
  }

  lemma {:induction false} StepReparent(s: Kernel, i: nat)
    requires Inv(s) && CanReparent(s, i) && !ChildNext(s, i)
    ensures Inv(ReparentEffect(s, i))
  {
    hide LocalOk, CpuOk, SpinsOk, HeldOk, SleepOk, WaitOk, WaitLockOk, ParentOk, PidOk, HistoryOk, ForkOk,
      Local, CpuSame, HeldSame, ParentSame, PidSame, HistorySame;
    var s' := ReparentEffect(s, i);
    LocalGoto(s, s', i);
    SpinMine(s, i);
    Frames(s, s', i, i);
    if s.procs[i].pc.j >= |s.procs| {
      HolderSteps(s, s', i, i);
    } else {
      HolderReparented(s, s', i, s.procs[i].pc.j);
    }
  }

  lemma {:induction false} LocalReparent(s: Kernel, i: nat)
    requires LocalOk(s) && CanReparent(s, i) && ChildNext(s, i)
    ensures var s', j := ReparentEffect(s, i), s.procs[i].pc.j;
            && Local(i, s'.procs[i], s') && Local(j, s'.procs[j], s') && s.procs[i].state == RUNNING
            && SpinSame(s.procs[i], s'.procs[i]) && SpinSame(s.procs[j], s'.procs[j])
            && SleepSame(s.procs[i], s'.procs[i]) && SleepSame(s.procs[j], s'.procs[j])
  {
    hide LocalOk;
    LocalAt(s, i);
    LocalAt(s, s.procs[i].pc.j);
  }

  lemma {:induction false} StepReparentChild(s: Kernel, i: nat)
    requires Inv(s) && CanReparent(s, i) && ChildNext(s, i)
    ensures Inv(ReparentEffect(s, i))
  {
    hide LocalOk, CpuOk, SpinsOk, HeldOk, SleepOk, WaitOk, WaitLockOk, ParentOk, PidOk, HistoryOk, ForkOk,
      CpuSame, HeldSame, PidSame, HistorySame, ForkSame, Local, SpinSame, SleepSame;
    var s' := ReparentEffect(s, i);
    var j := s.procs[i].pc.j;
    ForkReparented(s, s', i, j);
    LocalReparent(s, i);
    FieldsSame(s.procs[i], s'.procs[i]);
    FieldsSame(s.procs[j], s'.procs[j]);
    SpinMine(s, i);
    Frames(s, s', i, j);
    HolderReparented(s, s', i, j);
    WaitReparents(s, s', i, j);
    ParentMoved(s, s', i, j);
  }

  /** reparent is at a child of i. */
  predicate ChildNext(s: Kernel, i: nat)
    requires i < |s.procs| && s.procs[i].pc.Reparent?
  {
    s.procs[i].pc.j < |s.procs| && s.procs[s.procs[i].pc.j].parent == Thread(i)
  }

  lemma {:induction false} StepReparentWake(s: Kernel, i: nat)
    requires Inv(s) && CanReparentWake(s, i) && s.procs[i].pc.k < |s.procs|
    ensures Inv(ReparentWakeEffect(s, i))
  {
    hide LocalOk, CpuOk, SpinsOk, HeldOk, SleepOk, WaitOk, WaitLockOk, ParentOk, PidOk, HistoryOk, ForkOk,
      Local, CpuSame, HeldSame, ParentSame, PidSame, HistorySame,
      SpinSame, SleepSame, ForkSame;
    var s' := ReparentWakeEffect(s, i);
    var k := s.procs[i].pc.k;
    LocalGoto(s, s', i);
    ExitGoto(s.procs[i], s'.procs[i]);
    SpinMine(s, i);
    SpinMine(s, k);
    if k != i {
      LocalWoken(s, s', k, ProcChan(s.init));
    }
    Frames(s, s', i, k);
    HolderSteps(s, s', i, k);
    WaitWakes(s, s', i, k);
  }

  lemma {:induction false} StepReparentWoken(s: Kernel, i: nat)
    requires Inv(s) && CanReparentWake(s, i) && s.procs[i].pc.k >= |s.procs|
    ensures Inv(ReparentWakeEffect(s, i))
  {
    hide LocalOk, CpuOk, SpinsOk, HeldOk, SleepOk, WaitOk, WaitLockOk, ParentOk, PidOk, HistoryOk, ForkOk,
      Local, CpuSame, HeldSame, ParentSame, PidSame, HistorySame;
    var s' := ReparentWakeEffect(s, i);
    LocalGoto(s, s', i);
    Frames(s, s', i, i);
    SpinMine(s, i);
    HolderSteps(s, s', i, i);
    WaitWoken(s, s', i);
  }

  lemma {:induction false} StepExitWake(s: Kernel, i: nat)
    requires Inv(s) && CanExitWake(s, i) && s.procs[i].pc.k < |s.procs|
    ensures Inv(ExitWakeEffect(s, i))
  {
    hide LocalOk, CpuOk, SpinsOk, HeldOk, SleepOk, WaitOk, WaitLockOk, ParentOk, PidOk, HistoryOk, ForkOk,
      Local, CpuSame, HeldSame, ParentSame, PidSame, HistorySame,
      SpinSame, SleepSame, ForkSame, WaitSame;
    var s' := ExitWakeEffect(s, i);
    var k := s.procs[i].pc.k;
    LocalGoto(s, s', i);
    ExitGoto(s.procs[i], s'.procs[i]);
    SpinMine(s, i);
    SpinMine(s, k);
    if k != i {
      LocalWoken(s, s', k, if s.procs[i].parent.Thread? then ProcChan(s.procs[i].parent.i) else NoChan);
    }
    Frames(s, s', i, k);
    HolderWoke(s, s', i, k);
  }

  lemma {:induction false} StepExitMark(s: Kernel, i: nat)
    requires Inv(s) && CanExitWake(s, i) && s.procs[i].pc.k >= |s.procs|
    ensures Inv(ExitWakeEffect(s, i))
  {
    hide LocalOk, CpuOk, SpinsOk, HeldOk, SleepOk, WaitOk, WaitLockOk, ParentOk, PidOk, HistoryOk, ForkOk;
    var s' := ExitWakeEffect(s, i);
    LocalAt(s, i);
    Frames(s, s', i, i);
    SpinMine(s, i);
    HolderAt(s, i);
    WaitZombie(s, s', i);
    HolderStart(s', i);
    ParentZombie(s, s', i);
    HistoryExit(s, s', i, s.procs[i].pc.status);
  }

  lemma {:induction false} StepWaitScan(s: Kernel, i: nat, fault: bool)
    requires Inv(s) && CanWaitScan(s, i) && s.procs[i].pc.j < |s.procs| && !ZombieOf(s.procs[s.procs[i].pc.j], i)
    ensures Inv(WaitScanEffect(s, i, fault))
  {
    hide LocalOk, CpuOk, SpinsOk, HeldOk, SleepOk, WaitOk, WaitLockOk, ParentOk, PidOk, HistoryOk, ForkOk,
      Local, CpuSame, HeldSame, ParentSame, PidSame, HistorySame;
    var s' := WaitScanEffect(s, i, fault);
    LocalGoto(s, s', i);
    Frames(s, s', i, i);
    SpinMine(s, i);
    HolderScanned(s, s', i, s.procs[i].pc.j, s.procs[i].pc.kids, s'.procs[i].pc.kids);
  }

  lemma {:induction false} StepWaitFault(s: Kernel, i: nat)
    requires Inv(s) && CanWaitScan(s, i) && s.procs[i].pc.j < |s.procs| && ZombieOf(s.procs[s.procs[i].pc.j], i)
    ensures Inv(WaitScanEffect(s, i, true))
  {
    hide LocalOk, CpuOk, SpinsOk, HeldOk, SleepOk, WaitOk, WaitLockOk, ParentOk, PidOk, HistoryOk, ForkOk,
      Local, CpuSame, HeldSame, ParentSame, PidSame, HistorySame;
    var s' := WaitScanEffect(s, i, true);
    LocalGoto(s, s', i);
    Frames(s, s', i, i);
    SpinMine(s, i);
    SpinsDrop(s, s', i, i, WaitLock);
  }

  lemma {:induction false} StepWaitEnd(s: Kernel, i: nat, fault: bool)
    requires Inv(s) && CanWaitScan(s, i) && s.procs[i].pc.j >= |s.procs|
    ensures Inv(WaitScanEffect(s, i, fault))
  {
    hide LocalOk, CpuOk, SpinsOk, HeldOk, SleepOk, WaitOk, WaitLockOk, ParentOk, PidOk, HistoryOk, ForkOk,
      Local, CpuSame, HeldSame, ParentSame, PidSame, HistorySame;
    var s' := WaitScanEffect(s, i, fault);
    LocalGoto(s, s', i);
    Frames(s, s', i, i);
    SpinMine(s, i);
    if !s.procs[i].pc.kids || s.procs[i].killed {
      SpinsDrop(s, s', i, i, WaitLock);
    } else {
      HolderAt(s, i);
      HolderStart(s', i);
      WaitSleeps(s, s', i);
    }
  }

  lemma {:induction false} LocalReap(s: Kernel, i: nat)
    requires LocalOk(s) && CanWaitScan(s, i) && s.procs[i].pc.j < |s.procs| && ZombieOf(s.procs[s.procs[i].pc.j], i)
    ensures var s', j := WaitScanEffect(s, i, false), s.procs[i].pc.j;
            i != j && Idle(s.procs[j]) && Idle(s'.procs[j]) && Local(j, s'.procs[j], s')
  {
    hide LocalOk;
    LocalAt(s, i);
    LocalAt(s, s.procs[i].pc.j);
  }

  lemma {:induction false} StepReap(s: Kernel, i: nat)
    requires Inv(s) && CanWaitScan(s, i) && s.procs[i].pc.j < |s.procs| && ZombieOf(s.procs[s.procs[i].pc.j], i)
    ensures Inv(WaitScanEffect(s, i, false))
  {
    hide LocalOk, CpuOk, SpinsOk, HeldOk, SleepOk, WaitOk, WaitLockOk, ParentOk, PidOk, HistoryOk, ForkOk, Local,
      CpuSame, SpinSame, HeldSame, SleepSame, WaitSame;
    var s' := WaitScanEffect(s, i, false);
    var j := s.procs[i].pc.j;
    LocalReap(s, i);
    LocalGoto(s, s', i);
    AwakeGoto(s.procs[i], s'.procs[i]);
    IdleChange(s.procs[j], s'.procs[j]);
    SpinMine(s, i);
    Frames(s, s', i, j);
    SpinsDrop(s, s', i, j, WaitLock);
    HistoryReap(s, s', i, j);
  }

  lemma {:induction false} LocalFork(s: Kernel, i: nat, np: nat)
    requires LocalOk(s) && CanFork(s, i, np)
    ensures i != np && Idle(s.procs[np])
    ensures var s' := ForkEffect(s, i, np); Local(np, s'.procs[np], s')
  {
    hide LocalOk;
    LocalAt(s, i);
    LocalAt(s, np);
  }

  lemma {:induction false} StepFork(s: Kernel, i: nat, np: nat)
    requires Inv(s) && CanFork(s, i, np)
    ensures Inv(ForkEffect(s, i, np))
  {
    hide LocalOk, CpuOk, SpinsOk, HeldOk, SleepOk, WaitOk, WaitLockOk, ParentOk, PidOk, HistoryOk, ForkOk, Local,
      CpuSame, SpinSame, HeldSame, SleepSame, WaitSame, HolderSame;
    var s' := ForkEffect(s, i, np);
    LocalFork(s, i, np);
    LocalGoto(s, s', i);
    AwakeGoto(s.procs[i], s'.procs[i]);
    IdleChange(s.procs[np], s'.procs[np]);
    Frames(s, s', i, np);
    PidFork(s, s', i, np);
    HistoryFork(s, s', i, np);
    ForkNew(s, s', i, np);
  }

  /** Until it has run, the child of a fork changes only in its parent and its state. */
  lemma {:induction false} LocalChild(s: Kernel, s': Kernel, np: nat)
    requires LocalOk(s) && np < |s.procs| == |s'.procs| && |s'.locks| == |s.locks| && (s.zeroed ==> s'.zeroed)
    requires s.procs[np].state == USED && (s'.procs[np].state == USED || s'.procs[np].state == RUNNABLE)
    requires s'.procs[np] == s.procs[np].(parent := s'.procs[np].parent, state := s'.procs[np].state)
    ensures Idle(s.procs[np]) && Idle(s'.procs[np]) && s.procs[np].pc == New && Local(np, s'.procs[np], s')
  {
    hide LocalOk;
    LocalAt(s, np);
  }

  lemma {:induction false} StepForkParent(s: Kernel, i: nat)
    requires Inv(s) && CanForkParent(s, i)
    ensures Inv(ForkParentEffect(s, i))
  {
    hide LocalOk, CpuOk, SpinsOk, HeldOk, SleepOk, WaitOk, WaitLockOk, ParentOk, PidOk, HistoryOk, ForkOk, Local,
      CpuSame, SpinSame, HeldSame, SleepSame, WaitSame;
    var s' := ForkParentEffect(s, i);
    var np := s.procs[i].pc.np;
    ForkAt(s, i);
    LocalGoto(s, s', i);
    LocalChild(s, s', np);
    AwakeGoto(s.procs[i], s'.procs[i]);
    IdleChange(s.procs[np], s'.procs[np]);
    Frames(s, s', i, np);
    ParentMoved(s, s', i, np);
    ForkLinked(s, s', i, np);
  }

  lemma {:induction false} StepForkRun(s: Kernel, i: nat)
    requires Inv(s) && CanForkRun(s, i)
    ensures Inv(ForkRunEffect(s, i))
  {
    hide LocalOk, CpuOk, SpinsOk, HeldOk, SleepOk, WaitOk, WaitLockOk, ParentOk, PidOk, HistoryOk, ForkOk, Local,
      CpuSame, SpinSame, HeldSame, SleepSame, WaitSame;
    var s' := ForkRunEffect(s, i);
    var np := s.procs[i].pc.np;
    ForkAt(s, i);
    LocalGoto(s, s', i);
    LocalChild(s, s', np);
    AwakeGoto(s.procs[i], s'.procs[i]);
    IdleChange(s.procs[np], s'.procs[np]);
    Frames(s, s', i, np);
    ForkDone(s, s', i, np);
  }

  // ----- interrupt handlers -------------------------------------------------------------------------

  /** Only handler c and one spinlock changed. */
  ghost predicate OnlyHandler(s: Kernel, s': Kernel, c: nat, k: nat) {
    && c < |s.handlers| && k < |s.locks| && s' == s.(locks := s'.locks, handlers := s'.handlers)
    && |s'.locks| == |s.locks| && (forall x :: 0 <= x < |s.locks| && x != k ==> s'.locks[x] == s.locks[x])
    && s'.locks[k] == s.locks[k].(spin := s'.locks[k].spin, ready := s'.locks[k].ready)
    && (0 in s'.locks[k].ready <==> 0 in s.locks[k].ready)
    && |s'.handlers| == |s.handlers|
    && (forall x :: 0 <= x < |s.handlers| && x != c ==> s'.handlers[x] == s.handlers[x])
  }

  lemma {:induction false} HandlerThreads(s: Kernel, s': Kernel, c: nat, k: nat)
    requires LocalOk(s) && CpuOk(s) && HeldOk(s) && OnlyHandler(s, s', c, k)
    requires HandlerAt(s'.handlers[c], |s.procs|, |s.locks|)
    ensures LocalOk(s') && CpuOk(s') && HeldOk(s')
  {
    hide PcOk, Unmarked, HandlerAt;
  }

  lemma {:induction false} HandlerWaits(s: Kernel, s': Kernel, c: nat, k: nat)
    requires WaitOk(s) && WaitLockOk(s) && OnlyHandler(s, s', c, k)
    ensures WaitOk(s') && WaitLockOk(s')
  {
    hide Waits;
    if s.waitLock.Thread? && s.waitLock.i < |s.procs| {
      assert HolderOk(s, s.waitLock.i);
    }
  }

  lemma {:induction false} HandlerFamily(s: Kernel, s': Kernel, c: nat, k: nat)
    requires ParentOk(s) && ForkOk(s) && OnlyHandler(s, s', c, k)
    ensures ParentOk(s') && ForkOk(s')
  {
    hide Alive, Exiting, Started;
  }

  lemma {:induction false} HandlerHistory(s: Kernel, s': Kernel, c: nat, k: nat)
    requires PidOk(s) && HistoryOk(s) && OnlyHandler(s, s', c, k)
    ensures PidOk(s') && HistoryOk(s')
  {
  }

  /** The handler holds exactly this spinlock, or none. */
  ghost predicate HandlerHolds(s: Kernel, c: nat, k: nat)
    requires c < |s.handlers| && k < |s.locks|
  {
    || (SpinHeld(s.handlers[c]) == k && s.locks[k].spin == Handler(c))
    || (SpinHeld(s.handlers[c]) == -1 && s.locks[k].spin == Nobody)
  }

  lemma {:induction false} HandlerSpins(s: Kernel, s': Kernel, c: nat, k: nat)
    requires SpinsOk(s) && OnlyHandler(s, s', c, k) && HandlerHolds(s, c, k) && HandlerHolds(s', c, k)
    ensures SpinsOk(s')
  {
    hide HoldsWait, SpinHeld;
  }

  /** What the sleepers on lock k need of a step of the handler. */
  ghost predicate HandlerOwes(s: Kernel, s': Kernel, c: nat, k: nat, x: nat)
    requires x < |s.procs| && c < |s.handlers| == |s'.handlers| && k < |s.locks| == |s'.locks|
  {
    Sought(s.procs[x]).LockChan? && Sought(s.procs[x]).k == k ==>
      var ch := Sought(s.procs[x]).ch;
      ch in s'.locks[k].ready && (ch !in s.locks[k].ready || Due(s.handlers[c], k, ch, x)) ==>
        s'.locks[k].spin == Handler(c) && Due(s'.handlers[c], k, ch, x)
  }

  lemma {:induction false} HandlerSleep(s: Kernel, s': Kernel, c: nat, k: nat)
    requires SleepOk(s) && SpinsOk(s) && OnlyHandler(s, s', c, k) && HandlerHolds(s, c, k) && HandlerHolds(s', c, k)
    requires forall x :: 0 <= x < |s.procs| ==> HandlerOwes(s, s', c, k, x)
    ensures SleepOk(s')
  {
    hide Sought, Due, SpinHeld, HoldsWait;
    forall x | 0 <= x < |s.procs| && Sought(s'.procs[x]).LockChan? ensures SoughtOk(s', Sought(s'.procs[x]), x) {
      var h := Sought(s.procs[x]);
      assert SoughtOk(s, h, x) && HandlerOwes(s, s', c, k, x);
      if h.k != k && s.locks[h.k].spin == Handler(c) {
        assert SpinHeld(s.handlers[c]) == h.k;
      }
    }
  }

  /** A step of a handler that wakes nobody. */
  lemma {:induction false} HandlerStep(s: Kernel, s': Kernel, c: nat, k: nat)
    requires Inv(s) && OnlyHandler(s, s', c, k) && HandlerHolds(s, c, k) && HandlerHolds(s', c, k)
    requires HandlerAt(s'.handlers[c], |s.procs|, |s.locks|)
    requires forall x :: 0 <= x < |s.procs| ==> HandlerOwes(s, s', c, k, x)
    ensures Inv(s')
  {
    hide LocalOk, CpuOk, SpinsOk, HeldOk, SleepOk, WaitOk, WaitLockOk, ParentOk, PidOk, HistoryOk, ForkOk,
      OnlyHandler, HandlerHolds, HandlerOwes, HandlerAt;
    HandlerThreads(s, s', c, k);
    HandlerWaits(s, s', c, k);
    HandlerFamily(s, s', c, k);
    HandlerHistory(s, s', c, k);
    HandlerSpins(s, s', c, k);
    HandlerSleep(s, s', c, k);
  }

  /** A handler inside a lock holds it. */
  lemma {:induction false} HandlerMine(s: Kernel, c: nat)
    requires LocalOk(s) && SpinsOk(s) && c < |s.handlers| && Wakes(s.handlers[c])
    ensures s.handlers[c].k < |s.locks| && HandlerHolds(s, c, s.handlers[c].k)
    ensures s.handlers[c].Signal? ==> s.handlers[c].j <= |s.procs|
  {
    hide Local, HoldsWait;
    assert HandlerAt(s.handlers[c], |s.procs|, |s.locks|);
  }

  lemma {:induction false} StepIrqEnter(s: Kernel, c: nat, k: nat)
    requires Inv(s) && CanIrqEnter(s, c, k)
    ensures Inv(IrqEnterEffect(s, c, k))
  {
    hide LocalOk, CpuOk, SpinsOk, HeldOk, SleepOk, WaitOk, WaitLockOk, ParentOk, PidOk, HistoryOk, ForkOk, Sought;
    HandlerStep(s, IrqEnterEffect(s, c, k), c, k);
  }

  lemma {:induction false} StepIrqChange(s: Kernel, c: nat, ready: set<nat>)
    requires Inv(s) && CanIrqChange(s, c, ready)
    ensures Inv(IrqChangeEffect(s, c, ready))
  {
    hide LocalOk, CpuOk, SpinsOk, HeldOk, SleepOk, WaitOk, WaitLockOk, ParentOk, PidOk, HistoryOk, ForkOk, Sought;
    HandlerMine(s, c);
    HandlerStep(s, IrqChangeEffect(s, c, ready), c, s.handlers[c].k);
  }

  lemma {:induction false} StepIrqWakeup(s: Kernel, c: nat, ch: nat)
    requires Inv(s) && CanIrqWakeup(s, c)
    ensures Inv(IrqWakeupEffect(s, c, ch))
  {
    hide LocalOk, CpuOk, SpinsOk, HeldOk, SleepOk, WaitOk, WaitLockOk, ParentOk, PidOk, HistoryOk, ForkOk, Sought;
    HandlerMine(s, c);
    HandlerStep(s, IrqWakeupEffect(s, c, ch), c, s.handlers[c].k);
  }

  lemma {:induction false} StepIrqLeave(s: Kernel, c: nat)
    requires Inv(s) && CanIrqLeave(s, c)
    ensures Inv(IrqLeaveEffect(s, c))
  {
    hide LocalOk, CpuOk, SpinsOk, HeldOk, SleepOk, WaitOk, WaitLockOk, ParentOk, PidOk, HistoryOk, ForkOk, Sought;
    HandlerMine(s, c);
    HandlerStep(s, IrqLeaveEffect(s, c), c, s.handlers[c].k);
  }

  lemma {:induction false} StepIrqSignalled(s: Kernel, c: nat)
    requires Inv(s) && CanIrqSignal(s, c) && s.handlers[c].j >= |s.procs|
    ensures Inv(IrqSignalEffect(s, c))
  {
    hide LocalOk, CpuOk, SpinsOk, HeldOk, SleepOk, WaitOk, WaitLockOk, ParentOk, PidOk, HistoryOk, ForkOk, Sought;
    HandlerMine(s, c);
    HandlerStep(s, IrqSignalEffect(s, c), c, s.handlers[c].k);
  }

  /** wakeup by a handler, at process j: first the process, then the handler moves on. */
  lemma {:induction false} StepIrqSignal(s: Kernel, c: nat)
    requires Inv(s) && CanIrqSignal(s, c) && s.handlers[c].j < |s.procs|
    ensures Inv(IrqSignalEffect(s, c))
  {
    hide LocalOk, CpuOk, SpinsOk, HeldOk, SleepOk, WaitOk, WaitLockOk, ParentOk, PidOk, HistoryOk, ForkOk, Sought;
    var k, ch, j := s.handlers[c].k, s.handlers[c].ch, s.handlers[c].j;
    var s1 := Put(s, j, Woken(s.procs[j], LockChan(k, ch)));
    HandlerWakes(s, j, LockChan(k, ch));
    HandlerMine(s, c);
    SpinMine(s, j);
    LocalWoken(s, s1, j, LockChan(k, ch));
    HandlerStep(s1, IrqSignalEffect(s, c), c, k);
  }

  lemma {:induction false} HandlerWakes(s: Kernel, j: nat, chan: Chan)
    requires Inv(s) && j < |s.procs| && !s.procs[j].lock
    ensures Inv(Put(s, j, Woken(s.procs[j], chan)))
  {
    hide LocalOk, CpuOk, SpinsOk, HeldOk, SleepOk, WaitOk, WaitLockOk, ParentOk, PidOk, HistoryOk, ForkOk, Local,
      CpuSame, SpinSame, HeldSame, SleepSame, WaitSame, HolderSame, ParentSame, PidSame, HistorySame, ForkSame, Exiting;
    var s' := Put(s, j, Woken(s.procs[j], chan));
    LocalWoken(s, s', j, chan);
    Frames(s, s', j, j);
  }

  // ----- runs -------------------------------------------------------------------------------

  lemma {:induction false} ThreadKept(s: Kernel, a: Step)
    requires Inv(s) && CanThread(s, a)
    ensures Inv(DoThread(s, a))
  {
    hide Inv;
    match a
    case Dispatch(c, i) => StepDispatch(s, c, i);
    case SwitchOut(c) => StepSwitchOut(s, c);
    case DoResume(i) => StepResume(s, i);
    case DoYield(i) => StepYield(s, i);
    case Kill(i, pid) => StepKill(s, i, pid);
    case DoKillScan(i) => if VictimNext(s, i) { StepKillFound(s, i); } else { StepKillScan(s, i); }
    case DoSleepEnter(i) => StepSleepEnter(s, i);
    case DoSleepLocked(i) => StepSleepLocked(s, i);
    case DoSleepMark(i) => StepSleepMark(s, i);
    case DoSleepBack(i) => StepSleepBack(s, i);
    case DoReacquire(i) => StepReacquire(s, i);
  }

  lemma {:induction false} LockKept(s: Kernel, a: Step)
    requires Inv(s) && CanLock(s, a)
    ensures Inv(DoLock(s, a))
  {
    hide Inv;
    match a
    case Enter(i, k) => StepEnter(s, i, k);
    case Change(i, ready) => StepChange(s, i, ready);
    case SleepOn(i, ch) => StepSleepOn(s, i, ch);
    case Wakeup(i, ch) => StepWakeup(s, i, ch);
    case DoSignal(i) => if s.procs[i].pc.j < |s.procs| { StepSignal(s, i); } else { StepSignalled(s, i); }
    case Leave(i) => StepLeave(s, i);
    case Acquire(i, k) => StepAcquire(s, i, k);
    case DoAcqTest(i) => if s.locks[s.procs[i].pc.k].locked { StepAcqSleep(s, i); } else { StepAcqTake(s, i); }
    case Release(i, k) => StepRelease(s, i, k);
  }

  lemma {:induction false} FamilyKept(s: Kernel, a: Step)
    requires Inv(s) && CanFamily(s, a)
    ensures Inv(DoFamily(s, a))
  {
    hide Inv;
    match a
    case Exit(i, status) => StepExit(s, i, status);
    case DoReparent(i) => if ChildNext(s, i) { StepReparentChild(s, i); } else { StepReparent(s, i); }
    case DoReparentWake(i) =>
      if s.procs[i].pc.k < |s.procs| { StepReparentWake(s, i); } else { StepReparentWoken(s, i); }
    case DoExitWake(i) => if s.procs[i].pc.k < |s.procs| { StepExitWake(s, i); } else { StepExitMark(s, i); }
    case DoExitZombie(i) => StepExitZombie(s, i);
    case Wait(i) => StepWait(s, i);
    case DoWaitScan(i, fault) => StepScan(s, i, fault);
    case Fork(i, np) => StepFork(s, i, np);
    case DoForkParent(i) => StepForkParent(s, i);
    case DoForkRun(i) => StepForkRun(s, i);
  }

  lemma {:induction false} IrqKept(s: Kernel, a: Step)
    requires Inv(s) && CanIrq(s, a)
    ensures Inv(DoIrq(s, a))
  {
    hide Inv;
    match a
    case IrqEnter(c, k) => StepIrqEnter(s, c, k);
    case IrqChange(c, ready) => StepIrqChange(s, c, ready);
    case IrqWakeup(c, ch) => StepIrqWakeup(s, c, ch);
    case IrqSignal(c) => if s.handlers[c].j < |s.procs| { StepIrqSignal(s, c); } else { StepIrqSignalled(s, c); }
    case IrqLeave(c) => StepIrqLeave(s, c);
  }

  lemma {:induction false} StepKept(s: Kernel, a: Step)
    requires Inv(s) && Can(s, a)
    ensures Inv(Do(s, a))
  {
    hide Inv, CanThread, CanLock, CanFamily, CanIrq, DoThread, DoLock, DoFamily, DoIrq;
    if CanThread(s, a) {
      ThreadKept(s, a);
    } else if CanLock(s, a) {
      LockKept(s, a);
    } else if CanFamily(s, a) {
      FamilyKept(s, a);
    } else {
      IrqKept(s, a);
    }
  }

  lemma {:induction false} StepScan(s: Kernel, i: nat, fault: bool)
    requires Inv(s) && CanWaitScan(s, i)
    ensures Inv(WaitScanEffect(s, i, fault))
  {
    hide Inv, WaitScanEffect;
    if s.procs[i].pc.j >= |s.procs| {
      StepWaitEnd(s, i, fault);
    } else if !ZombieOf(s.procs[s.procs[i].pc.j], i) {
      StepWaitScan(s, i, fault);
    } else if fault {
      StepWaitFault(s, i);
    } else {
      StepReap(s, i);
    }
  }

  /** procinit, userinit and the start of every CPU's scheduler. */
  ghost predicate Booted(s: Kernel) {
    && s.init < |s.procs|
    && (forall i :: 0 <= i < |s.procs| && i != s.init ==>
         s.procs[i] == Proc(UNUSED, NoChan, false, 0, 0, Nobody, false, Free, 0, 0, {}))
    && s.procs[s.init] == Proc(RUNNABLE, NoChan, false, 0, 1, Nobody, false, New, 0, 0, {})
    && (forall c :: 0 <= c < |s.cpus| ==> s.cpus[c] == Nobody)
    && s.waitLock == Nobody
    && (forall k :: 0 <= k < |s.locks| ==>
          s.locks[k] == Monitor(Nobody, s.locks[k].ready, false, 0, 0) && 0 in s.locks[k].ready)
    && (forall c :: 0 <= c < |s.handlers| ==> s.handlers[c] == Ready)
    && s.nextpid == 2 && s.exited == map[] && s.reaped == [] && !s.zeroed
  }

  lemma {:induction false} BootThreads(s: Kernel)
    requires Booted(s)
    ensures LocalOk(s) && CpuOk(s)
  {
  }

  lemma {:induction false} BootLocks(s: Kernel)
    requires Booted(s)
    ensures SpinsOk(s) && HeldOk(s) && SleepOk(s)
  {
  }

  lemma {:induction false} BootTable(s: Kernel)
    requires Booted(s)
    ensures WaitOk(s) && WaitLockOk(s) && ParentOk(s) && PidOk(s) && HistoryOk(s) && ForkOk(s)
  {
  }

  lemma {:induction false} BootKept(s: Kernel)
    requires Booted(s)
    ensures Inv(s)
  {
    hide Booted, LocalOk, CpuOk, SpinsOk, HeldOk, SleepOk, WaitOk, WaitLockOk, ParentOk, PidOk, HistoryOk, ForkOk;
    BootThreads(s);
    BootLocks(s);
    BootTable(s);
  }

  ghost predicate Reaches(s: Kernel, run: seq<Step>, s': Kernel)
    decreases |run|
  {
    if run == [] then s' == s else Can(s, run[0]) && Reaches(Do(s, run[0]), run[1..], s')
  }

  /** Every reachable state keeps the invariant. */
  lemma {:induction false} RunKept(s: Kernel, run: seq<Step>, s': Kernel)
    requires Inv(s) && Reaches(s, run, s')
    ensures Inv(s')
    decreases |run|
  {
    hide Inv, Can, Do;
    if run != [] {
      StepKept(s, run[0]);
      RunKept(Do(s, run[0]), run[1..], s');
    }
  }

  // ----- what holds in every reachable state ----------------------------------------------------

  /**
   Whatever a spinlock guards, and whichever condition on it a process waits for: while nobody
   is inside the lock, who sleeps on the channel sleeps because the condition does not hold.
   */
  lemma {:induction false} NoLostWakeup(boot: Kernel, run: seq<Step>, s: Kernel, x: nat, k: nat, ch: nat)
    requires Booted(boot) && Reaches(boot, run, s) && x < |s.procs| && k < |s.locks|
    requires s.procs[x].state == SLEEPING && s.procs[x].chan == LockChan(k, ch) && s.locks[k].spin == Nobody
    ensures ch !in s.locks[k].ready
  {
    hide Reaches, Booted, CpuOk, SpinsOk, HeldOk, WaitOk, WaitLockOk, ParentOk, PidOk, HistoryOk, ForkOk;
    BootKept(boot);
    RunKept(boot, run, s);
    LocalAt(s, x);
    assert Sought(s.procs[x]) == LockChan(k, ch);
  }

  /** In particular, who sleeps for a sleep lock sleeps for a locked one. */
  lemma {:induction false} SleepersFindItLocked(boot: Kernel, run: seq<Step>, s: Kernel, x: nat, k: nat)
    requires Booted(boot) && Reaches(boot, run, s) && x < |s.procs| && k < |s.locks|
    requires s.procs[x].state == SLEEPING && s.procs[x].chan == LockChan(k, 0) && s.locks[k].spin == Nobody
    ensures s.locks[k].locked
  {
    hide Reaches, Booted, LocalOk, CpuOk, SpinsOk, SleepOk, WaitOk, WaitLockOk, ParentOk, PidOk, HistoryOk, ForkOk;
    NoLostWakeup(boot, run, s, x, k, 0);
    BootKept(boot);
    RunKept(boot, run, s);
  }

  /** A sleep lock has at most one holder, and has one exactly while it is locked. */
  lemma {:induction false} SleepLocksExclude(boot: Kernel, run: seq<Step>, s: Kernel, k: nat)
    requires Booted(boot) && Reaches(boot, run, s) && k < |s.locks|
    ensures forall x, y ::
              0 <= x < |s.procs| && 0 <= y < |s.procs| && k in s.procs[x].held && k in s.procs[y].held ==> x == y
    ensures s.locks[k].locked <==> exists x :: 0 <= x < |s.procs| && k in s.procs[x].held
  {
    hide Reaches, Booted, LocalOk, CpuOk, SpinsOk, SleepOk, WaitOk, WaitLockOk, ParentOk, PidOk, HistoryOk, ForkOk;
    BootKept(boot);
    RunKept(boot, run, s);
    if s.locks[k].locked {
      assert k in s.procs[s.locks[k].holder].held;
    }
  }

  /** holdingsleep's answer, locked and pid equal to the caller's, is right. */
  lemma {:induction false} HoldingsleepIsRight(boot: Kernel, run: seq<Step>, s: Kernel, x: nat, k: nat)
    requires Booted(boot) && Reaches(boot, run, s) && x < |s.procs| && k < |s.locks| && s.procs[x].state != UNUSED
    ensures s.locks[k].locked && s.locks[k].pid == s.procs[x].pid <==> k in s.procs[x].held
  {
    hide Reaches, Booted, CpuOk, SpinsOk, SleepOk, WaitOk, WaitLockOk, ParentOk, HistoryOk, ForkOk;
    BootKept(boot);
    RunKept(boot, run, s);
    if s.locks[k].locked {
      LocalAt(s, s.locks[k].holder);
    }
  }

  /**
   With p->lock free, a process is RUNNING exactly when it is some CPU's current process, and then
   of one CPU only.
   */
  lemma {:induction false} RunningIffCurrent(boot: Kernel, run: seq<Step>, s: Kernel, x: nat)
    requires Booted(boot) && Reaches(boot, run, s) && x < |s.procs| && !s.procs[x].lock
    ensures s.procs[x].state == RUNNING <==> exists c :: 0 <= c < |s.cpus| && s.cpus[c] == Thread(x)
    ensures forall c, d ::
              0 <= c < |s.cpus| && 0 <= d < |s.cpus| && s.cpus[c] == Thread(x) && s.cpus[d] == Thread(x) ==> c == d
  {
    hide Reaches, Booted, SpinsOk, HeldOk, SleepOk, WaitOk, WaitLockOk, ParentOk, PidOk, HistoryOk, ForkOk;
    BootKept(boot);
    RunKept(boot, run, s);
    LocalAt(s, x);
    if s.procs[x].state == RUNNING {
      assert s.cpus[s.procs[x].cpu] == Thread(x);
    }
  }

  /** Every parent pointer names a process that is neither UNUSED nor ZOMBIE. */
  lemma {:induction false} ParentsAreAlive(boot: Kernel, run: seq<Step>, s: Kernel, y: nat)
    requires Booted(boot) && Reaches(boot, run, s) && y < |s.procs| && s.procs[y].parent.Thread?
    ensures s.procs[y].parent.i < |s.procs|
    ensures s.procs[s.procs[y].parent.i].state != UNUSED && s.procs[s.procs[y].parent.i].state != ZOMBIE
  {
    hide Reaches, Booted, LocalOk, CpuOk, SpinsOk, HeldOk, SleepOk, WaitOk, WaitLockOk, PidOk, HistoryOk, ForkOk;
    BootKept(boot);
    RunKept(boot, run, s);
  }

  /** Every process that has started, exited ones included, has a live parent to reap it; only init has none. */
  lemma {:induction false} NobodyIsOrphaned(boot: Kernel, run: seq<Step>, s: Kernel, y: nat)
    requires Booted(boot) && Reaches(boot, run, s) && y < |s.procs| && y != s.init
    requires s.procs[y].state != UNUSED && s.procs[y].state != USED
    ensures s.procs[y].parent.Thread? && s.procs[y].parent.i < |s.procs| && Alive(s.procs[s.procs[y].parent.i].state)
  {
    hide Reaches, Booted, LocalOk, CpuOk, SpinsOk, HeldOk, SleepOk, WaitOk, WaitLockOk, PidOk, HistoryOk, ForkOk;
    BootKept(boot);
    RunKept(boot, run, s);
    assert Started(s.procs[y].state);
  }

  /** No two processes have the same pid. */
  lemma {:induction false} PidsAreUnique(boot: Kernel, run: seq<Step>, s: Kernel, x: nat, y: nat)
    requires Booted(boot) && Reaches(boot, run, s) && x < |s.procs| && y < |s.procs|
    requires s.procs[x].state != UNUSED && s.procs[y].state != UNUSED && s.procs[x].pid == s.procs[y].pid
    ensures x == y
  {
    hide Reaches, Booted, LocalOk, CpuOk, SpinsOk, HeldOk, SleepOk, WaitOk, WaitLockOk, ParentOk, HistoryOk, ForkOk;
    BootKept(boot);
    RunKept(boot, run, s);
  }

  /** wait returns each pid at most once, with the recorded status. */
  lemma {:induction false} ReapedOnce(boot: Kernel, run: seq<Step>, s: Kernel, r: nat)
    requires Booted(boot) && Reaches(boot, run, s) && r < |s.reaped|
    ensures s.reaped[r].pid in s.exited && s.reaped[r].status == s.exited[s.reaped[r].pid]
    ensures forall q :: 0 <= q < |s.reaped| && q != r ==> s.reaped[q].pid != s.reaped[r].pid
  {
    hide Reaches, Booted, LocalOk, CpuOk, SpinsOk, HeldOk, SleepOk, WaitOk, WaitLockOk, ParentOk, PidOk, ForkOk;
    BootKept(boot);
    RunKept(boot, run, s);
  }

  lemma {:induction false} ThreadsReapNot(s: Kernel, a: Step)
    ensures CanThread(s, a) ==> DoThread(s, a).reaped == s.reaped
  {
  }

  lemma {:induction false} LocksReapNot(s: Kernel, a: Step)
    ensures CanLock(s, a) ==> DoLock(s, a).reaped == s.reaped
    ensures CanIrq(s, a) ==> DoIrq(s, a).reaped == s.reaped
  {
  }

  /** What a step adds to `reaped` is a zombie, reaped by its parent of that moment. */
  lemma {:induction false} ReapedByParent(s: Kernel, a: Step)
    requires Inv(s) && Can(s, a)
    ensures Do(s, a).reaped == s.reaped ||
            exists j :: 0 <= j < |s.procs| && s.procs[j].state == ZOMBIE && s.procs[j].parent.Thread? &&
                        Do(s, a).reaped == s.reaped + [Reap(s.procs[j].pid, s.procs[j].xstate, s.procs[j].parent.i)]
  {
    hide Inv, CanThread, CanLock, CanIrq, DoThread, DoLock, DoIrq;
    ThreadsReapNot(s, a);
    LocksReapNot(s, a);
    if a.DoWaitScan? && CanFamily(s, a) {
      var j := s.procs[a.i].pc.j;
      if j < |s.procs| && ZombieOf(s.procs[j], a.i) {
        assert s.procs[j].parent.i == a.i;
      }
    }
  }

  /** With wait_lock free, no process sleeps in wait while it has a zombie child. */
  lemma {:induction false} NoZombieMissed(boot: Kernel, run: seq<Step>, s: Kernel, x: nat, y: nat)
    requires Booted(boot) && Reaches(boot, run, s) && x < |s.procs| && y < |s.procs| && s.waitLock == Nobody
    requires s.procs[x].state == SLEEPING && s.procs[x].chan == ProcChan(x) && s.procs[y].parent == Thread(x)
    ensures s.procs[y].state != ZOMBIE
  {
    hide Reaches, Booted, CpuOk, SpinsOk, HeldOk, SleepOk, WaitLockOk, ParentOk, PidOk, HistoryOk, ForkOk;
    BootKept(boot);
    RunKept(boot, run, s);
    LocalAt(s, x);
    assert Waits(s.procs[x]);
    assert s.procs[y].state == ZOMBIE ==> ZombieOf(s.procs[y], x);
  }

  /** wait gives up for want of children only when there are none. */
  lemma {:induction false} WaitFailsWithoutChildren(boot: Kernel, run: seq<Step>, s: Kernel, x: nat, y: nat)
    requires Booted(boot) && Reaches(boot, run, s) && x < |s.procs| && y < |s.procs|
    requires s.procs[x].pc.WaitScan? && s.procs[x].pc.j >= |s.procs| && !s.procs[x].pc.kids
    ensures s.procs[y].parent != Thread(x)
  {
    hide Reaches, Booted, LocalOk, CpuOk, HeldOk, SleepOk, WaitOk, ParentOk, PidOk, HistoryOk, ForkOk;
    BootKept(boot);
    RunKept(boot, run, s);
    SpinMine(s, x);
    HolderAt(s, x);
  }

  /** None of sched's panics is reachable: p->lock is held, no other lock is, and the state has changed. */
  lemma {:induction false} SchedNeverPanics(boot: Kernel, run: seq<Step>, s: Kernel, x: nat)
    requires Booted(boot) && Reaches(boot, run, s) && x < |s.procs|
    requires s.procs[x].pc.SwYield? || s.procs[x].pc.SwSleep? || s.procs[x].pc.SwExit?
    ensures s.procs[x].lock && s.procs[x].state != RUNNING && s.waitLock != Thread(x)
    ensures forall k :: 0 <= k < |s.locks| ==> s.locks[k].spin != Thread(x)
  {
    hide Reaches, Booted, CpuOk, HeldOk, SleepOk, WaitOk, WaitLockOk, ParentOk, PidOk, HistoryOk, ForkOk;
    BootKept(boot);
    RunKept(boot, run, s);
    LocalAt(s, x);
  }

  // ----- kill -------------------------------------------------------------------------------------

  /** The slot that kill(pid) finds holds a process exactly when pid is not 0. */
  lemma {:induction false} KillFindsProcessIffNonzero(boot: Kernel, run: seq<Step>, s: Kernel, i: nat)
    requires Booted(boot) && Reaches(boot, run, s) && i < |s.procs| && s.procs[i].pc.KillScan? && VictimNext(s, i)
    ensures s.procs[s.procs[i].pc.j].state != UNUSED <==> s.procs[i].pc.pid != 0
  {
    hide Reaches, Booted, CpuOk, SpinsOk, HeldOk, SleepOk, WaitOk, WaitLockOk, ParentOk, HistoryOk, ForkOk;
    BootKept(boot);
    RunKept(boot, run, s);
    LocalAt(s, s.procs[i].pc.j);
  }

  predicate KillsZero(a: Step) {
    a.Kill? && a.pid == 0
  }

  lemma {:induction false} ThreadZeroes(s: Kernel, a: Step)
    requires CanThread(s, a)
    ensures DoThread(s, a).zeroed <==> s.zeroed || KillsZero(a)
  {
  }

  lemma {:induction false} LocksZeroNot(s: Kernel, a: Step)
    ensures CanLock(s, a) ==> DoLock(s, a).zeroed == s.zeroed && !KillsZero(a)
    ensures CanIrq(s, a) ==> DoIrq(s, a).zeroed == s.zeroed && !KillsZero(a)
  {
  }

  lemma {:induction false} FamilyZeroesNot(s: Kernel, a: Step)
    ensures CanFamily(s, a) ==> DoFamily(s, a).zeroed == s.zeroed && !KillsZero(a)
  {
  }

  lemma {:induction false} StepZeroes(s: Kernel, a: Step)
    requires Can(s, a)
    ensures Do(s, a).zeroed <==> s.zeroed || KillsZero(a)
  {
    hide CanThread, CanLock, CanFamily, CanIrq, DoThread, DoLock, DoFamily, DoIrq, KillsZero;
    LocksZeroNot(s, a);
    FamilyZeroesNot(s, a);
    if CanThread(s, a) {
      ThreadZeroes(s, a);
    }
  }

  lemma {:induction false} RunZeroes(s: Kernel, run: seq<Step>, s': Kernel)
    requires Reaches(s, run, s')
    ensures s'.zeroed <==> s.zeroed || exists n :: 0 <= n < |run| && KillsZero(run[n])
    decreases |run|
  {
    hide Can, Do, KillsZero;
    if run != [] {
      StepZeroes(s, run[0]);
      RunZeroes(Do(s, run[0]), run[1..], s');
      assert run == [run[0]] + run[1..];
      if n :| 0 <= n < |run[1..]| && KillsZero(run[1..][n]) {
        assert KillsZero(run[n + 1]);
      }
      if n :| 0 < n < |run| && KillsZero(run[n]) {
        assert KillsZero(run[1..][n - 1]);
      }
    }
  }

  /** Without a kill(0), no process is born with a mark that was meant for another. */
  lemma {:induction false} BornUnmarked(boot: Kernel, run: seq<Step>, s: Kernel, i: nat, np: nat)
    requires Booted(boot) && Reaches(boot, run, s) && CanFork(s, i, np)
    requires forall n :: 0 <= n < |run| ==> !KillsZero(run[n])
    ensures !ForkEffect(s, i, np).procs[np].killed
  {
    hide Reaches, CpuOk, SpinsOk, HeldOk, SleepOk, WaitOk, WaitLockOk, ParentOk, PidOk, HistoryOk, ForkOk;
    BootKept(boot);
    RunKept(boot, run, s);
    RunZeroes(boot, run, s);
    LocalAt(s, i);
    LocalAt(s, np);
  }

  lemma {:induction false} First(s: Kernel, a: Step, rest: seq<Step>, s': Kernel)
    requires Can(s, a) && Reaches(Do(s, a), rest, s')
    ensures Reaches(s, [a] + rest, s')
  {
    hide Can, Do;
    assert ([a] + rest)[1..] == rest;
  }

  /** With one, it can be: init calls kill(0) and forks, and its child is ready to run with the mark. */
  lemma {:induction false} BornKilled(boot: Kernel) returns (run: seq<Step>, s: Kernel)
    requires Booted(boot) && boot.init == 0 && |boot.procs| >= 2 && |boot.cpus| >= 1
    ensures Reaches(boot, run, s)
    ensures |s.procs| >= 2 && s.procs[1].state == RUNNABLE && s.procs[1].pc == New
    ensures s.procs[1].parent == Thread(0) && s.procs[1].killed
  {
    hide Reaches;
    var s1 := DispatchEffect(boot, 0, 0);
    var s2 := ResumeEffect(s1, 0);
    var s3 := KillEffect(s2, 0, 0);
    var s4 := KillScanEffect(s3, 0);
    var s5 := KillScanEffect(s4, 0);
    var s6 := ForkEffect(s5, 0, 1);
    var s7 := ForkParentEffect(s6, 0);
    s := ForkRunEffect(s7, 0);
    Last(s);
    run := [];
    First(s7, DoForkRun(0), run, s);
    run := [DoForkRun(0)] + run;
    First(s6, DoForkParent(0), run, s);
    run := [DoForkParent(0)] + run;
    First(s5, Fork(0, 1), run, s);
    run := [Fork(0, 1)] + run;
    First(s4, DoKillScan(0), run, s);
    run := [DoKillScan(0)] + run;
    First(s3, DoKillScan(0), run, s);
    run := [DoKillScan(0)] + run;
    First(s2, Kill(0, 0), run, s);
    run := [Kill(0, 0)] + run;
    First(s1, DoResume(0), run, s);
    run := [DoResume(0)] + run;
    First(boot, Dispatch(0, 0), run, s);
    run := [Dispatch(0, 0)] + run;
  }

  lemma {:induction false} Last(s: Kernel)
    ensures Reaches(s, [], s)
  {
  }
}
