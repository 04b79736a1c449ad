/**
 A file-system operation as the log's clients write it (kernel/log.c:209-213): begin_op,
 then bread, change, log_write and brelse for each block, then end_op.  What it does to
 readers, to the disk and to every crash point follows from the contracts of the log.
 */
module Operation {
  import opened Journal
  import opened Bio
  import opened Durability
  import opened Log
  import Reservation
  import opened Sequences

  // ----- there is a buffer --------------------------------------------------------------

  /** The buffers that someone uses. */
  ghost function Used(users: seq<nat>): (r: set<nat>) {
    set b | 0 <= b < |users| && users[b] != 0
  }

  ghost function PinnedBufs(pins: seq<nat>): (r: set<nat>) {
    set b | 0 <= b < |pins| && pins[b] != 0
  }

  /** Each pinned block occupies one buffer. */
  lemma {:induction false} PinsCount(bufs: seq<Buf>, pins: seq<nat>, P: set<nat>)
    requires Pinned(bufs, pins, P) && Unique(bufs)
    requires forall i :: 0 <= i < |bufs| ==> (bufs[i].valid ==> bufs[i].dev == ROOTDEV)
    ensures |PinnedBufs(pins)| <= |P|
  {
    Injective(PinnedBufs(pins), seq(|bufs|, i requires 0 <= i < |bufs| => bufs[i].blockno), P);
  }

  lemma {:induction false} SomeSpare(bufs: seq<Buf>, pins: seq<nat>, users: seq<nat>, P: set<nat>)
    requires Pinned(bufs, pins, P) && Unique(bufs) && |users| == |bufs| == NBUF
    requires forall i :: 0 <= i < |bufs| ==> (bufs[i].valid ==> bufs[i].dev == ROOTDEV)
    requires |P| + |Used(users)| < NBUF
    ensures Spare(pins, users, {})
  {
    PinsCount(bufs, pins, P);
    UptoCount(NBUF);
    if forall b :: 0 <= b < NBUF ==> b in PinnedBufs(pins) + Used(users) {
      SubsetCount(Upto(NBUF), PinnedBufs(pins) + Used(users));
      assert false;
    }
    var b :| 0 <= b < NBUF && b !in PinnedBufs(pins) + Used(users);
    assert pins[b] == 0 && users[b] == 0;
  }

  /** With fewer blocks pinned and buffers used than there are buffers, bget does not panic. */
  lemma {:induction false} CacheHasSpare(bc: Bcache, P: set<nat>, R: set<nat>)
    requires Busy(bc, P, {}, R) && |P| + |Used(bc.users)| < NBUF
    ensures Spare(bc.pins, bc.users, {})
  {
    hide Pinned, Bcache.RingOk, Bcache.TraceOk;
    CacheFacts(bc, 0);
    SomeSpare(bc.bufs, bc.pins, bc.users, P);
  }

  // ----- one logged write ---------------------------------------------------------------

  lemma {:induction false} HeldStays(bufs: seq<Buf>, bufs': seq<Buf>, users: seq<nat>, disk: Disk, R: set<nat>, b: nat)
    requires InUse(bufs, users, disk, {b}, R) && |bufs'| == |bufs| && b < NBUF
    requires forall i :: 0 <= i < |bufs| && i != b ==> bufs'[i] == bufs[i]
    ensures InUse(bufs', users, disk, {b}, R)
  {
  }

  lemma {:induction false} UsersCount(bufs: seq<Buf>, users: seq<nat>, disk: Disk, R: set<nat>)
    requires InUse(bufs, users, disk, {}, R)
    ensures |users| == NBUF
  {
  }

  lemma {:induction false} TakenBack(users: seq<nat>, b: nat)
    requires b < |users| && users[b] == 0
    ensures users[b := 1][b := 0] == users
  {
  }

  /** bread, change, log_write, brelse. */
  method Update(log: Log, me: nat, blockno: nat, v: Block, ghost op: nat, ghost R: set<nat>)
    requires log.HeaderOk() && log.ReservedOk() && Busy(log.bc, log.Members(), {}, R)
    requires LOGSIZE <= log.g.size && op in log.left && me != 0
    requires blockno < |log.bc.disk| && !InLog(log.g, blockno) && blockno !in R
    requires blockno !in log.Members() ==> 1 < log.left[op] && Spare(log.bc.pins, log.bc.users, {})
    modifies log`n, log`block, log`left
    modifies log.bc`bufs, log.bc`users, log.bc`next, log.bc`prev, log.bc`ring, log.bc`pins
    ensures log.HeaderOk() && log.ReservedOk() && Busy(log.bc, log.Members(), {}, R)
    ensures log.Members() == old(log.Members()) + {blockno} && log.bc.users == old(log.bc.users)
    ensures View(log.bc.bufs, log.bc.disk) == old(View(log.bc.bufs, log.bc.disk))[blockno := v]
    ensures old(blockno in log.Members()) ==> log.n == old(log.n) && log.left == old(log.left)
    ensures old(blockno !in log.Members()) ==>
              log.n == old(log.n) + 1 && log.left == old(log.left)[op := old(log.left)[op] - 1]
  {
    hide Bcache.Valid, Pinned, View, InUse, Spare, Fits, Log.ReservedOk;
    var bc := log.bc;
    UsersCount(bc.bufs, bc.users, bc.disk, R);
    var b := Get(bc, blockno, me, log.Members(), {}, R);
    assert {} + {b} == {b};
    ghost var bufs := bc.bufs;
    bc.Store(b, me, v);
    PinnedKept(bufs, bc.bufs, bc.pins, log.Members(), b);
    HeldStays(bufs, bc.bufs, bc.users, bc.disk, R, b);
    bufs := bc.bufs;
    log.LogWrite(b, me, op);
    HeldStays(bufs, bc.bufs, bc.users, bc.disk, R, b);
    Put(bc, b, me, log.Members(), {b}, R);
    assert {b} - {b} == {};
    TakenBack(old(bc.users), b);
  }

  // ----- a whole operation --------------------------------------------------------------

  ghost function Targets(ws: seq<Write>): (r: set<nat>) {
    if ws == [] then {} else Targets(ws[..|ws| - 1]) + {ws[|ws| - 1].blockno}
  }

  /** Writes of home blocks that nobody else is reading. */
  ghost predicate Writable(g: Geometry, size: nat, R: set<nat>, ws: seq<Write>) {
    forall i :: 0 <= i < |ws| ==> ws[i].blockno < size && !InLog(g, ws[i].blockno) && ws[i].blockno !in R
  }

  lemma {:induction false} TargetsPrefix(ws: seq<Write>, k: nat)
    requires k <= |ws|
    ensures Targets(ws[..k]) <= Targets(ws)
    decreases |ws|
  {
    if k < |ws| {
      assert ws[..|ws| - 1][..k] == ws[..k];
      TargetsPrefix(ws[..|ws| - 1], k);
    } else {
      assert ws[..k] == ws;
    }
  }

  lemma {:induction false} TargetsMore(ws: seq<Write>, k: nat)
    requires k < |ws|
    ensures Targets(ws[..k + 1]) == Targets(ws[..k]) + {ws[k].blockno} <= Targets(ws)
    ensures Targets(ws[..k]) <= Targets(ws)
  {
    assert ws[..k + 1][..k] == ws[..k];
    TargetsPrefix(ws, k);
    TargetsPrefix(ws, k + 1);
  }

  /** Blocks that an operation adds to those already recorded. */
  ghost function Fresh(T: set<nat>, M: set<nat>): (k: nat) {
    |T - M|
  }

  lemma {:induction false} FreshMore(T: set<nat>, U: set<nat>, M: set<nat>, b: nat)
    requires T + {b} <= U
    ensures Fresh(T, M) <= Fresh(T + {b}, M) <= Fresh(U, M) && |M + T| <= |M + U| && M + T + {b} == M + (T + {b})
    ensures b !in M + T ==> Fresh(T + {b}, M) == Fresh(T, M) + 1
    ensures b in M + T ==> Fresh(T + {b}, M) == Fresh(T, M)
  {
    SubsetCount(T + {b} - M, U - M);
    SubsetCount(M + T, M + U);
    if b in M + T {
      assert T + {b} - M == T - M;
    } else {
      assert T + {b} - M == T - M + {b};
    }
  }

  lemma {:induction false} NoTargets(M: set<nat>)
    ensures Targets([]) == {} && M + Targets([]) == M && Fresh(Targets([]), M) == 0
  {
  }

  /** The writes of an operation, between begin_op and end_op. */
  method UpdateAll(log: Log, me: nat, ws: seq<Write>, ghost op: nat, ghost R: set<nat>)
    requires log.HeaderOk() && log.ReservedOk() && Busy(log.bc, log.Members(), {}, R)
    requires LOGSIZE <= log.g.size && op in log.left && log.left[op] == Reservation.MAXOPBLOCKS && me != 0
    requires Writable(log.g, |log.bc.disk|, R, ws) && Fresh(Targets(ws), log.Members()) < Reservation.MAXOPBLOCKS
    requires |log.Members() + Targets(ws)| + |Used(log.bc.users)| < NBUF
    modifies log`n, log`block, log`left
    modifies log.bc`bufs, log.bc`users, log.bc`next, log.bc`prev, log.bc`ring, log.bc`pins
    ensures log.HeaderOk() && log.ReservedOk() && Busy(log.bc, log.Members(), {}, R)
    ensures log.Members() == old(log.Members()) + Targets(ws) && log.bc.users == old(log.bc.users)
    ensures WritesFit(ws, |log.bc.disk|)
    ensures View(log.bc.bufs, log.bc.disk) == Apply(old(View(log.bc.bufs, log.bc.disk)), ws)
    ensures log.left.Keys == old(log.left.Keys)
    ensures forall o :: o in log.left && o != op ==> log.left[o] == old(log.left)[o]
  {
    hide Busy, View, Fits, Log.ReservedOk, Targets, Fresh, Used;
    ghost var M, view, left := log.Members(), View(log.bc.bufs, log.bc.disk), log.left;
    assert ws[..0] == [];
    NoTargets(M);
    var i := 0;
    while i < |ws|
      invariant i <= |ws|
      invariant log.HeaderOk() && log.ReservedOk() && Busy(log.bc, log.Members(), {}, R)
      invariant log.Members() == M + Targets(ws[..i]) && log.bc.users == old(log.bc.users)
      invariant View(log.bc.bufs, log.bc.disk) == Apply(view, ws[..i])
      invariant op in log.left && log.left[op] == Reservation.MAXOPBLOCKS - Fresh(Targets(ws[..i]), M)
      invariant log.left.Keys == left.Keys && forall o :: o in left && o != op ==> log.left[o] == left[o]
    {
      TargetsMore(ws, i);
      FreshMore(Targets(ws[..i]), Targets(ws), M, ws[i].blockno);
      CacheHasSpare(log.bc, log.Members(), R);
      Update(log, me, ws[i].blockno, ws[i].data, op, R);
      ApplyMore(view, ws, i);
      i := i + 1;
    }
    assert ws[..i] == ws;
  }

  lemma {:induction false} ApplyMore(disk: Disk, ws: seq<Write>, k: nat)
    requires WritesFit(ws, |disk|) && k < |ws|
    ensures WritesFit(ws[..k], |disk|)
    ensures Apply(disk, ws[..k + 1]) == Apply(disk, ws[..k])[ws[k].blockno := ws[k].data]
  {
    assert ws[..k + 1][..k] == ws[..k];
  }

  /** end_op, with a buffer to spare. */
  method Conclude(log: Log, me: nat, ghost op: nat, ghost R: set<nat>)
    requires log.HeaderOk() && log.ReservedOk() && log.Durable() && Busy(log.bc, log.Members(), {}, R)
    requires op in log.left && me != 0 && log.Elsewhere(R) && |log.Members()| + |Used(log.bc.users)| < NBUF
    modifies log`n, log`left, log`outstanding, log`committing, log`ends
    modifies log.bc`bufs, log.bc`users, log.bc`next, log.bc`prev, log.bc`ring, log.bc`pins, log.bc`disk, log.bc`writes
    ensures log.HeaderOk() && log.ReservedOk() && log.Durable() && Busy(log.bc, log.Members(), {}, R)
    ensures log.left == old(log.left) - {op} && !log.committing && log.outstanding == old(log.outstanding) - 1
    ensures |log.bc.disk| == old(|log.bc.disk|) && old(log.bc.writes) <= log.bc.writes
    ensures log.outstanding > 0 ==> log.n == old(log.n) && log.ends == old(log.ends) && unchanged(log.bc)
    ensures log.outstanding == 0 ==>
              && log.Members() == {} && View(log.bc.bufs, log.bc.disk) == log.bc.disk
              && SameHome(log.g, log.bc.disk, old(View(log.bc.bufs, log.bc.disk)))
              && log.ends == if old(log.n) == 0 then old(log.ends)
                             else old(log.ends) + [old(View(log.bc.bufs, log.bc.disk))]
  {
    hide Busy, Quiet, View, Fits, Log.ReservedOk, Log.Durable, SameHome, Used, Log.Elsewhere, CommitWrites;
    QuietNow(log, R);
    var woken := log.EndOp(me, op, R);
    if log.outstanding == 0 {
      QuietIsBusy(log, R);
    }
  }

  /** An operation that begin_op has admitted. */
  method Started(log: Log, me: nat, ws: seq<Write>, ghost op: nat, ghost R: set<nat>)
    requires log.HeaderOk() && log.ReservedOk() && log.Durable() && Busy(log.bc, log.Members(), {}, R)
    requires LOGSIZE <= log.g.size && op in log.left && log.left[op] == Reservation.MAXOPBLOCKS && me != 0
    requires Writable(log.g, |log.bc.disk|, R, ws) && Fresh(Targets(ws), log.Members()) < Reservation.MAXOPBLOCKS
    requires log.Elsewhere(R) && |log.Members() + Targets(ws)| + |Used(log.bc.users)| < NBUF
    modifies log`n, log`block, log`left, log`outstanding, log`committing, log`ends
    modifies log.bc`bufs, log.bc`users, log.bc`next, log.bc`prev, log.bc`ring, log.bc`pins, log.bc`disk, log.bc`writes
    ensures log.HeaderOk() && log.ReservedOk() && log.Durable() && Busy(log.bc, log.Members(), {}, R)
    ensures log.left == old(log.left) - {op} && !log.committing && log.outstanding == old(log.outstanding) - 1
    ensures |log.bc.disk| == old(|log.bc.disk|) && WritesFit(ws, |log.bc.disk|)
    ensures old(log.bc.writes) <= log.bc.writes
    ensures log.outstanding > 0 ==>
              && log.Members() == old(log.Members()) + Targets(ws) && log.ends == old(log.ends)
              && View(log.bc.bufs, log.bc.disk) == Apply(old(View(log.bc.bufs, log.bc.disk)), ws)
    ensures log.outstanding == 0 ==>
              && log.Members() == {} && View(log.bc.bufs, log.bc.disk) == log.bc.disk
              && SameHome(log.g, log.bc.disk, Apply(old(View(log.bc.bufs, log.bc.disk)), ws))
              && log.ends == if old(log.Members()) + Targets(ws) == {} then old(log.ends)
                             else old(log.ends) + [Apply(old(View(log.bc.bufs, log.bc.disk)), ws)]
  {
    hide Busy, View, Fits, Log.ReservedOk, Log.Durable, SameHome, Targets, Fresh, Used, Log.Elsewhere, Apply, Writable;
    ghost var left, M := log.left, log.Members();
    Apart(log, R);
    WritableFits(log.g, |log.bc.disk|, R, ws);
    UpdateAll(log, me, ws, op, R);
    Recorded(log, M, ws, R);
    LeftAgain(left - {op}, op, log.left);
    Conclude(log, me, op, R);
  }

  /**
   begin_op, any number of logged writes, end_op.  Readers see the writes; if it was the last
   outstanding operation they are on disk as well and one more state is there to be recovered.
   */
  method Perform(log: Log, me: nat, ws: seq<Write>, ghost op: nat, ghost R: set<nat>) returns (started: bool)
    requires log.HeaderOk() && log.ReservedOk() && log.Durable() && Busy(log.bc, log.Members(), {}, R)
    requires LOGSIZE <= log.g.size && op !in log.left && me != 0 && log.Elsewhere(R)
    requires Writable(log.g, |log.bc.disk|, R, ws) && Fresh(Targets(ws), log.Members()) < Reservation.MAXOPBLOCKS
    requires |log.Members() + Targets(ws)| + |Used(log.bc.users)| < NBUF
    modifies log`n, log`block, log`left, log`outstanding, log`committing, log`ends
    modifies log.bc`bufs, log.bc`users, log.bc`next, log.bc`prev, log.bc`ring, log.bc`pins, log.bc`disk, log.bc`writes
    ensures started <==> old(!log.committing && Reservation.HasRoom(log.n, log.outstanding))
    ensures !started ==> unchanged(log) && unchanged(log.bc)
    ensures log.HeaderOk() && log.ReservedOk() && log.Durable() && Busy(log.bc, log.Members(), {}, R)
    ensures log.left == old(log.left) && WritesFit(ws, |log.bc.disk|) && |log.bc.disk| == old(|log.bc.disk|)
    ensures old(log.bc.writes) <= log.bc.writes
    ensures log.outstanding == old(log.outstanding) && (log.committing <==> old(log.committing))
    ensures started && log.outstanding > 0 ==>
              && log.Members() == old(log.Members()) + Targets(ws) && log.ends == old(log.ends)
              && View(log.bc.bufs, log.bc.disk) == Apply(old(View(log.bc.bufs, log.bc.disk)), ws)
    ensures started && log.outstanding == 0 ==>
              && log.Members() == {} && View(log.bc.bufs, log.bc.disk) == log.bc.disk
              && SameHome(log.g, log.bc.disk, Apply(old(View(log.bc.bufs, log.bc.disk)), ws))
              && log.ends == if Targets(ws) == {} then old(log.ends)
                             else old(log.ends) + [Apply(old(View(log.bc.bufs, log.bc.disk)), ws)]
  {
    hide Busy, View, Fits, Log.ReservedOk, Log.Durable, SameHome, Targets, Fresh, Used, Log.Elsewhere, Apply, Writable;
    Outstanding(log);
    WritableFits(log.g, |log.bc.disk|, R, ws);
    ghost var left := log.left;
    started := log.BeginOp(op);
    if started {
      assert left[op := Reservation.MAXOPBLOCKS] - {op} == left;
      Started(log, me, ws, op, R);
    }
  }

  lemma {:induction false} WritableFits(g: Geometry, size: nat, R: set<nat>, ws: seq<Write>)
    requires Writable(g, size, R, ws)
    ensures WritesFit(ws, size)
  {
  }

  lemma {:induction false} Apart(log: Log, R: set<nat>)
    requires log.HeaderOk() && log.Elsewhere(R)
    ensures R !! log.Members() && forall r :: r in R ==> !InLog(log.g, r)
  {
  }

  /** What the number of outstanding operations says. */
  lemma {:induction false} Outstanding(log: Log)
    requires log.HeaderOk() && log.ReservedOk()
    ensures log.outstanding == 0 && !log.committing ==> log.n == 0
    ensures log.n == 0 ==> log.Members() == {}
  {
    hide Fits, Reservation.Tight, Reservation.Fits;
    assert log.outstanding == 0 ==> log.left == map[];
  }

  lemma {:induction false} TargetIs(ws: seq<Write>, x: nat) returns (i: nat)
    requires x in Targets(ws)
    ensures i < |ws| && ws[i].blockno == x
    decreases |ws|
  {
    if x == ws[|ws| - 1].blockno {
      i := |ws| - 1;
    } else {
      i := TargetIs(ws[..|ws| - 1], x);
    }
  }

  /** The blocks others read are still elsewhere. */
  lemma {:induction false} Recorded(log: Log, M: set<nat>, ws: seq<Write>, R: set<nat>)
    requires log.HeaderOk() && log.Members() == M + Targets(ws) && R !! M && forall r :: r in R ==> !InLog(log.g, r)
    requires Writable(log.g, |log.bc.disk|, R, ws)
    ensures log.Elsewhere(R) && (log.n == 0 <==> log.Members() == {})
  {
    hide Targets, Fits;
    forall x | x in Targets(ws) ensures x !in R {
      var i := TargetIs(ws, x);
    }
    if log.n > 0 {
      assert log.block[..log.n][0] in log.Members();
    }
  }

  lemma {:induction false} QuietNow(log: Log, R: set<nat>)
    requires log.HeaderOk() && Busy(log.bc, log.Members(), {}, R) && |log.Members()| + |Used(log.bc.users)| < NBUF
    ensures Quiet(log.bc, log.Members(), R)
  {
    hide Busy, Fits, Used;
    CacheHasSpare(log.bc, log.Members(), R);
  }

  lemma {:induction false} QuietIsBusy(log: Log, R: set<nat>)
    requires log.HeaderOk() && log.n == 0 && Quiet(log.bc, {}, R)
    ensures log.Members() == {} && Busy(log.bc, log.Members(), {}, R)
  {
    hide Busy, Fits;
    assert log.block[..0] == [];
  }

  lemma {:induction false} LeftAgain(left: map<nat, nat>, op: nat, left': map<nat, nat>)
    requires op !in left && left'.Keys == left.Keys + {op}
    requires forall o :: o in left ==> left'[o] == left[o]
    ensures left' - {op} == left
  {
  }
}
