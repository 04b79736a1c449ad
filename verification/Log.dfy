/**
 kernel/log.c over the buffer cache: group commit, recovery and log_write.
 The write sequences these methods issue are exactly the ones Journal reasons
 about, and every method keeps `Durable`, so Durability's theorem about crashes
 holds after any sequence of calls (CrashAfter).
 */
module Log {
  import opened Journal
  import opened Bio
  import opened Durability
  import Reservation
  import opened Sequences

  /** Exactly the blocks of P are pinned, each once, in a valid buffer. */
  ghost predicate Pinned(bufs: seq<Buf>, pins: seq<nat>, P: set<nat>) {
    && |bufs| == |pins|
    && (forall b :: 0 <= b < |pins| ==> pins[b] == if bufs[b].valid && bufs[b].blockno in P then 1 else 0)
    && (forall x :: x in P ==> exists b :: 0 <= b < |bufs| && bufs[b].valid && Caches(bufs[b], x))
  }

  /** A buffer that other processes are reading: one of the blocks R, as it is on disk. */
  ghost predicate Read(buf: Buf, disk: Disk, R: set<nat>) {
    buf.dev == ROOTDEV && buf.blockno in R && (buf.valid && buf.blockno < |disk| ==> buf.data == disk[buf.blockno])
  }

  /** The buffers in S are in use, by one process each; apart from them others only read blocks of R. */
  ghost predicate Busy(bc: Bcache, P: set<nat>, S: set<nat>, R: set<nat>)
    reads bc
  {
    bc.Valid() && Pinned(bc.bufs, bc.pins, P) && InUse(bc.bufs, bc.users, bc.disk, S, R)
  }

  ghost predicate InUse(bufs: seq<Buf>, users: seq<nat>, disk: Disk, S: set<nat>, R: set<nat>) {
    && |bufs| == |users| == NBUF
    && forall b :: 0 <= b < NBUF ==> if b in S then users[b] == 1 else users[b] == 0 || Read(bufs[b], disk, R)
  }

  lemma {:induction false} InUseWritten(bufs: seq<Buf>, users: seq<nat>, disk: Disk, S: set<nat>, R: set<nat>,
                                        b: nat, v: Block)
    requires InUse(bufs, users, disk, S, R) && Unique(bufs) && b < NBUF && bufs[b].valid && bufs[b].dev == ROOTDEV
    requires bufs[b].blockno < |disk|
    ensures InUse(bufs[b := bufs[b].(data := v)], users, disk[bufs[b].blockno := v], S, R)
  {
  }

  /** Some buffer outside S is neither pinned nor in use: without one, bget panics. */
  ghost predicate Spare(pins: seq<nat>, users: seq<nat>, S: set<nat>) {
    |users| == |pins| && exists b :: 0 <= b < |pins| && b !in S && pins[b] == 0 && users[b] == 0
  }

  ghost predicate Quiet(bc: Bcache, P: set<nat>, R: set<nat>)
    reads bc
  {
    Busy(bc, P, {}, R) && Spare(bc.pins, bc.users, {})
  }

  /** An unpinned block whose buffer nobody uses is the same in the cache and on disk. */
  lemma {:induction false} UnpinnedIsOnDisk(bc: Bcache, P: set<nat>, S: set<nat>, R: set<nat>, n: nat)
    requires Busy(bc, P, S, R) && n < |bc.disk| && n !in P
    requires forall i :: i in S && i < NBUF ==> bc.bufs[i].blockno != n
    ensures View(bc.bufs, bc.disk)[n] == bc.disk[n]
  {
    if b :| 0 <= b < NBUF && bc.bufs[b].valid && Caches(bc.bufs[b], n) {
      LookHit(bc.bufs, bc.disk, b);
    }
  }

  lemma {:induction false} CleanView(bc: Bcache, R: set<nat>)
    requires Busy(bc, {}, {}, R)
    ensures View(bc.bufs, bc.disk) == bc.disk
  {
    forall n | 0 <= n < |bc.disk| ensures View(bc.bufs, bc.disk)[n] == bc.disk[n] {
      UnpinnedIsOnDisk(bc, {}, {}, R, n);
    }
  }

  lemma {:induction false} NothingPinned(bc: Bcache, l: nat)
    requires Busy(bc, {}, {l}, {})
    ensures Spare(bc.pins, bc.users, {l})
  {
    var b := if l == 0 then 1 else 0;
    assert bc.pins[b] == 0 && bc.users[b] == 0;
  }

  /** Pins do not care which unpinned buffer was recycled, nor who uses a buffer. */
  lemma {:induction false} PinnedKept(bufs: seq<Buf>, bufs': seq<Buf>, pins: seq<nat>, P: set<nat>, b: nat)
    requires Pinned(bufs, pins, P) && |bufs'| == |bufs| && b < |bufs|
    requires forall i :: 0 <= i < |bufs| && i != b ==> bufs'[i] == bufs[i]
    requires if bufs[b].valid && bufs'[b].blockno == bufs[b].blockno
             then bufs'[b].valid && bufs'[b].dev == bufs[b].dev
             else pins[b] == 0 && (bufs'[b].valid ==> bufs'[b].blockno !in P)
    ensures Pinned(bufs', pins, P)
  {
    forall x | x in P ensures exists i :: 0 <= i < |bufs'| && bufs'[i].valid && Caches(bufs'[i], x) {
      var i :| 0 <= i < |bufs| && bufs[i].valid && Caches(bufs[i], x);
      assert bufs'[i].valid && Caches(bufs'[i], x);
    }
  }

  /** bread by the committing process, which already holds the buffers in S. */
  method Get(bc: Bcache, blockno: nat, me: nat, ghost P: set<nat>, ghost S: set<nat>,
             ghost R: set<nat>) returns (b: nat)
    requires Busy(bc, P, S, R) && blockno < |bc.disk| && me != 0
    requires forall i :: i in S && i < NBUF ==> bc.bufs[i].blockno != blockno
    requires blockno !in R && (blockno in P || Spare(bc.pins, bc.users, S))
    modifies bc`bufs, bc`users, bc`next, bc`prev, bc`ring
    ensures b < NBUF == |bc.bufs| == |bc.pins| && b !in S && Busy(bc, P, S + {b}, R)
    ensures bc.users == old(bc.users)[b := 1] && old(bc.users)[b] == 0
    ensures if blockno in P then bc.pins[b] > 0 else bc.bufs[b].data == bc.disk[blockno]
    ensures bc.bufs[b].owner == me && bc.bufs[b].valid && bc.bufs[b].blockno == blockno
    ensures bc.bufs[b].data == old(View(bc.bufs, bc.disk)[blockno])
    ensures forall i :: i in S && i < NBUF ==> bc.bufs[i] == old(bc.bufs[i])
    ensures View(bc.bufs, bc.disk) == old(View(bc.bufs, bc.disk))
  {
    hide Bcache.RingOk, Bcache.TraceOk, Bcache.CleanOk, View;
    if blockno !in P {
      UnpinnedIsOnDisk(bc, P, S, R, blockno);
    }
    b := bc.Bread(blockno, me);
    PinnedKept(old(bc.bufs), bc.bufs, bc.pins, P, b);
  }

  /** brelse of a buffer that is pinned or written. */
  method Put(bc: Bcache, b: nat, me: nat, ghost P: set<nat>, ghost S: set<nat>, ghost R: set<nat>)
    requires Busy(bc, P, S, R) && b < NBUF && b in S && me != 0 && bc.bufs[b].owner == me
    requires bc.bufs[b].valid && bc.pins[b] == 0 ==> bc.bufs[b].data == bc.disk[bc.bufs[b].blockno]
    modifies bc`bufs, bc`users, bc`next, bc`prev, bc`ring
    ensures Busy(bc, P, S - {b}, R)
    ensures bc.bufs == old(bc.bufs[b := bc.bufs[b].(owner := 0, refcnt := bc.bufs[b].refcnt - 1)])
    ensures View(bc.bufs, bc.disk) == old(View(bc.bufs, bc.disk))
    ensures bc.users == old(bc.users)[b := 0]
  {
    bc.Brelse(b, me);
    PinnedKept(old(bc.bufs), bc.bufs, bc.pins, P, b);
  }

  /** memmove into a held buffer, then bwrite. */
  method Overwrite(bc: Bcache, b: nat, me: nat, v: Block, ghost P: set<nat>, ghost S: set<nat>, ghost R: set<nat>)
    requires Busy(bc, P, S, R) && b < NBUF && me != 0 && bc.bufs[b].owner == me && bc.bufs[b].valid
    modifies bc`bufs, bc`disk, bc`writes
    ensures Busy(bc, P, S, R)
    ensures bc.bufs == old(bc.bufs[b := bc.bufs[b].(data := v)])
    ensures bc.disk == old(bc.disk[bc.bufs[b].blockno := v])
    ensures bc.writes == old(bc.writes + [Write(bc.bufs[b].blockno, v)])
    ensures View(bc.bufs, bc.disk) == old(View(bc.bufs, bc.disk)[bc.bufs[b].blockno := v])
  {
    hide Bcache.RingOk, Bcache.TraceOk, View, InUse, Unique;
    InUseWritten(bc.bufs, bc.users, bc.disk, S, R, b, v);
    bc.Store(b, me, v);
    PinnedKept(old(bc.bufs), bc.bufs, bc.pins, P, b);
    bc.Bwrite(b, me);
  }

  /** bunpin of a written buffer. */
  method Unpin(bc: Bcache, b: nat, ghost P: set<nat>, ghost S: set<nat>, ghost R: set<nat>)
    requires Busy(bc, P, S, R) && b < NBUF && bc.bufs[b].valid && bc.bufs[b].blockno in P
    requires bc.bufs[b].data == bc.disk[bc.bufs[b].blockno]
    modifies bc`bufs, bc`pins
    ensures Busy(bc, P - {old(bc.bufs[b].blockno)}, S, R)
    ensures bc.bufs == old(bc.bufs[b := bc.bufs[b].(refcnt := bc.bufs[b].refcnt - 1)])
    ensures View(bc.bufs, bc.disk) == old(View(bc.bufs, bc.disk))
    ensures bc.pins == old(bc.pins[b := 0])
  {
    bc.Bunpin(b);
    UnpinnedOne(old(bc.bufs), bc.bufs, old(bc.pins), P, b);
  }

  lemma {:induction false} UnpinnedOne(bufs: seq<Buf>, bufs': seq<Buf>, pins: seq<nat>, P: set<nat>, b: nat)
    requires Pinned(bufs, pins, P) && Unique(bufs) && b < |bufs| && pins[b] > 0
    requires forall i :: 0 <= i < |bufs| ==> (bufs[i].valid ==> bufs[i].dev == ROOTDEV)
    requires |bufs'| == |bufs| && bufs' == bufs[b := bufs[b].(refcnt := bufs'[b].refcnt)]
    ensures Pinned(bufs', pins[b := pins[b] - 1], P - {bufs[b].blockno})
  {
    forall x | x in P && x != bufs[b].blockno
      ensures exists i :: 0 <= i < |bufs'| && bufs'[i].valid && Caches(bufs'[i], x)
    {
      var i :| 0 <= i < |bufs| && bufs[i].valid && Caches(bufs[i], x);
      assert bufs'[i].valid && Caches(bufs'[i], x);
    }
  }

  /** One turn of write_log: copy a pinned block into the log. */
  method LogBlock(bc: Bcache, src: nat, dst: nat, me: nat, ghost P: set<nat>, ghost R: set<nat>)
    requires Quiet(bc, P, R) && src < |bc.disk| && dst < |bc.disk| && src in P && dst !in P && me != 0
    requires src !in R && dst !in R
    modifies bc`bufs, bc`users, bc`next, bc`prev, bc`ring, bc`disk, bc`writes
    ensures Quiet(bc, P, R)
    ensures View(bc.bufs, bc.disk) == old(View(bc.bufs, bc.disk)[dst := View(bc.bufs, bc.disk)[src]])
    ensures bc.disk == old(bc.disk[dst := View(bc.bufs, bc.disk)[src]])
    ensures bc.writes == old(bc.writes + [Write(dst, View(bc.bufs, bc.disk)[src])])
  {
    hide Bcache.Valid, Pinned;
    var d := Get(bc, dst, me, P, {}, R);
    var s := Get(bc, src, me, P, {d}, R);
    assert {d} + {s} == {s, d};
    Overwrite(bc, d, me, bc.bufs[s].data, P, {s, d}, R);
    PutBoth(bc, s, d, me, P, R);
  }

  /** One turn of install_trans: copy a log block home; outside recovery the home buffer is pinned. */
  method InstallBlock(bc: Bcache, src: nat, dst: nat, me: nat, recovering: bool, ghost P: set<nat>, ghost R: set<nat>)
    requires Quiet(bc, P, R) && src < |bc.disk| && dst < |bc.disk| && src != dst && src !in P && me != 0
    requires src !in R && dst !in R && if recovering then P == R == {} else dst in P
    modifies bc`bufs, bc`users, bc`next, bc`prev, bc`ring, bc`disk, bc`writes, bc`pins
    ensures Quiet(bc, P - {dst}, R)
    ensures View(bc.bufs, bc.disk) == old(View(bc.bufs, bc.disk)[dst := View(bc.bufs, bc.disk)[src]])
    ensures bc.disk == old(bc.disk[dst := View(bc.bufs, bc.disk)[src]])
    ensures bc.writes == old(bc.writes + [Write(dst, View(bc.bufs, bc.disk)[src])])
  {
    hide Bcache.Valid, Pinned;
    var l := Get(bc, src, me, P, {}, R);
    if recovering {
      NothingPinned(bc, l);
    }
    var d := Get(bc, dst, me, P, {l}, R);
    assert {l} + {d} == {l, d};
    Overwrite(bc, d, me, bc.bufs[l].data, P, {l, d}, R);
    ghost var Q := P - {dst};
    if recovering {
      assert Q == P;
    } else {
      Unpin(bc, d, P, {l, d}, R);
    }
    PutBoth(bc, l, d, me, Q, R);
  }

  method PutBoth(bc: Bcache, l: nat, d: nat, me: nat, ghost P: set<nat>, ghost R: set<nat>)
    requires Busy(bc, P, {l, d}, R) && l < NBUF && d < NBUF && l != d && me != 0
    requires bc.bufs[l].owner == bc.bufs[d].owner == me
    requires bc.bufs[l].valid && bc.pins[l] == 0 ==> bc.bufs[l].data == bc.disk[bc.bufs[l].blockno]
    requires bc.bufs[d].valid && bc.pins[d] == 0 ==> bc.bufs[d].data == bc.disk[bc.bufs[d].blockno]
    modifies bc`bufs, bc`users, bc`next, bc`prev, bc`ring
    ensures Busy(bc, P, {}, R)
    ensures View(bc.bufs, bc.disk) == old(View(bc.bufs, bc.disk))
    ensures bc.users == old(bc.users)[l := 0][d := 0]
  {
    Put(bc, l, me, P, {l, d}, R);
    assert {l, d} - {l} == {d};
    Put(bc, d, me, P, {d}, R);
    assert {d} - {d} == {};
  }

  lemma {:induction false} TakeMore<T>(s: seq<T>, k: nat)
    requires k < |s|
    ensures s[..k + 1] == s[..k] + [s[k]]
  {
  }

  lemma {:induction false} Restate<T>(s: seq<T>, i: nat)
    requires i < |s|
    ensures s[i := s[i]] == s
  {
  }

  lemma {:induction false} TailSet(s: seq<nat>, k: nat)
    requires Distinct(s) && k < |s|
    ensures ToSet(s[k..]) - {s[k]} == ToSet(s[k + 1..])
  {
    assert s[k..] == [s[k]] + s[k + 1..];
  }

  ghost function Vals(view: Disk, blocks: seq<nat>): (vals: seq<Block>)
    requires forall i :: 0 <= i < |blocks| ==> blocks[i] < |view|
  {
    seq(|blocks|, i requires 0 <= i < |blocks| => view[blocks[i]])
  }

  ghost predicate Fits(g: Geometry, n: nat, blocks: seq<nat>) {
    0 < g.size && g.start + g.size <= n && HomeBlocks(g, n, blocks)
  }

  /** The first k blocks stand in the log; nothing else changed. */
  ghost predicate Copied(g: Geometry, blocks: seq<nat>, view: Disk, v: Disk, k: nat)
    requires k <= |blocks| && Fits(g, |view|, blocks)
  {
    && |v| == |view|
    && (forall i :: 0 <= i < |v| && !(g.start < i <= g.start + k) ==> v[i] == view[i])
    && Logged(g, v, k) == Vals(view, blocks)[..k]
  }

  lemma {:induction false} Start(g: Geometry, blocks: seq<nat>, view: Disk)
    requires Fits(g, |view|, blocks)
    ensures Copied(g, blocks, view, view, 0) && Homed(g, blocks, view, view, 0)
  {
  }

  lemma {:induction false} CopiedStep(g: Geometry, blocks: seq<nat>, view: Disk, v: Disk, k: nat)
    requires k < |blocks| && Fits(g, |view|, blocks) && Copied(g, blocks, view, v, k)
    ensures v[blocks[k]] == view[blocks[k]]
    ensures Copied(g, blocks, view, v[g.start + k + 1 := v[blocks[k]]], k + 1)
  {
    var w := v[g.start + k + 1 := v[blocks[k]]];
    assert Logged(g, w, k + 1) == Logged(g, v, k) + [v[blocks[k]]];
    assert Vals(view, blocks)[..k + 1] == Vals(view, blocks)[..k] + [view[blocks[k]]];
  }

  /** The first k blocks have been installed from the log; nothing else changed. */
  ghost predicate Homed(g: Geometry, blocks: seq<nat>, view: Disk, v: Disk, k: nat)
    requires k <= |blocks| && Fits(g, |view|, blocks)
  {
    && |v| == |view|
    && (forall i :: 0 <= i < k ==> v[blocks[i]] == view[g.start + 1 + i])
    && (forall x :: 0 <= x < |v| && x !in blocks[..k] ==> v[x] == view[x])
  }

  lemma {:induction false} HomedStep(g: Geometry, blocks: seq<nat>, view: Disk, v: Disk, k: nat)
    requires k < |blocks| && Fits(g, |view|, blocks) && Homed(g, blocks, view, v, k)
    ensures v[g.start + k + 1] == view[g.start + k + 1]
    ensures Homed(g, blocks, view, v[blocks[k] := v[g.start + k + 1]], k + 1)
  {
    assert InLog(g, g.start + k + 1);
    assert g.start + k + 1 !in blocks[..k];
    assert blocks[..k + 1] == blocks[..k] + [blocks[k]];
  }

  /** The four phases of commit, on what a reader of the cache sees. */
  ghost predicate Phases(g: Geometry, blocks: seq<nat>, v0: Disk, v1: Disk, v2: Disk, v3: Disk, v4: Disk)
    requires Fits(g, |v0|, blocks)
  {
    && Copied(g, blocks, v0, v1, |blocks|)
    && v2 == v1[g.start := Encode(v1[g.start], blocks)]
    && Homed(g, blocks, v2, v3, |blocks|)
    && v4 == v3[g.start := Encode(v3[g.start], [])]
  }

  /** Commit changes no home block, and its writes are those of the journal. */
  lemma {:induction false} CommitPhases(g: Geometry, blocks: seq<nat>, v0: Disk, v1: Disk, v2: Disk, v3: Disk, v4: Disk)
    requires Fits(g, |v0|, blocks) && blocks != [] && Phases(g, blocks, v0, v1, v2, v3, v4)
    ensures SameHome(g, v4, v0)
    ensures LogWrites(g, Vals(v0, blocks)) + [HeadWrite(g, v1[g.start], blocks)]
            + InstallWrites(blocks, Logged(g, v2, |blocks|)) + [HeadWrite(g, v3[g.start], [])]
         == CommitWrites(g, v0[g.start], Group(blocks, Vals(v0, blocks)))
  {
    var n := |blocks|;
    assert Logged(g, v2, n) == Logged(g, v1, n) == Vals(v0, blocks)[..n] == Vals(v0, blocks);
    assert blocks[..n] == blocks;
    assert InLog(g, g.start) && g.start !in blocks;
    forall i | 0 <= i < n ensures v3[blocks[i]] == v0[blocks[i]] {
      assert v2[g.start + 1 + i] == Logged(g, v2, n)[i];
    }
    forall x | 0 <= x < |v0| && !InLog(g, x) ensures v3[x] == v0[x] {
      if x !in blocks { assert v2[x] == v1[x]; }
    }
  }

  lemma {:induction false} NothingToCommit(g: Geometry, view: Disk, block: seq<nat>)
    ensures block[..0] == [] && ToSet(block[..0]) == {} && SameHome(g, view, view)
    ensures g.start < |view| ==> Vals(view, []) == [] && CommitWrites(g, view[g.start], Group([], [])) == []
  {
  }

  lemma {:induction false} RecoverPhases(g: Geometry, disk: Disk, v: Disk)
    requires DiskOk(g, disk) && Homed(g, Decode(disk[g.start]), disk, v, |Decode(disk[g.start])|)
    ensures var blocks := Decode(disk[g.start]);
            InstallWrites(blocks, Logged(g, disk, |blocks|)) + [HeadWrite(g, v[g.start], [])] == RecoverWrites(g, disk)
  {
    assert InLog(g, g.start) && g.start !in Decode(disk[g.start]);
  }

  /** The loop of write_head. */
  method FillHead(stale: Block, n: nat, block: seq<nat>) returns (hb: Block)
    requires n <= |block| == LOGSIZE
    ensures hb == Encode(stale, block[..n])
  {
    hb := stale[0 := n];
    for i := 0 to n
      invariant hb == [n] + block[..i] + stale[1 + i..]
    {
      hb := hb[1 + i := block[i]];
      TakeMore(block, i);
    }
  }

  /** The loop of read_head. */
  method ReadBlocks(hb: Block, block: seq<nat>) returns (read: seq<nat>)
    requires |block| == LOGSIZE && hb[0] <= LOGSIZE
    ensures |read| == LOGSIZE && read[..hb[0]] == Decode(hb)
  {
    read := block;
    for i := 0 to hb[0]
      invariant |read| == LOGSIZE && read[..i] == hb[1..1 + i]
    {
      read := read[i := hb[1 + i]];
      TakeMore(read, i);
    }
  }

  /** struct log; `block` is lh.block with its LOGSIZE slots, `n` is lh.n. */
  class Log {
    const bc: Bcache
    const g: Geometry
    var outstanding: nat
    var committing: bool
    var n: nat
    var block: seq<nat>
    ghost var left: map<nat, nat>   // unused reservation of each outstanding operation
    ghost const boot: Disk          // the disk that initlog found ...
    ghost const base: nat           // ... after this many writes
    ghost var ends: seq<Disk>       // what readers saw after boot and at the end of each group since

    /** initlog: recover before anything else uses the log. */
    constructor (cache: Bcache, geometry: Geometry, me: nat)
      requires Quiet(cache, {}, {}) && DiskOk(geometry, cache.disk) && me != 0
      modifies cache`bufs, cache`users, cache`next, cache`prev, cache`ring, cache`disk, cache`writes, cache`pins
      ensures bc == cache && g == geometry && n == 0 && outstanding == 0 && !committing
      ensures HeaderOk() && Quiet(bc, {}, {}) && ReservedOk() && Durable()
      ensures bc.writes == old(cache.writes) + RecoverWrites(g, old(cache.disk))
      ensures View(bc.bufs, bc.disk) == bc.disk == Recovered(g, old(cache.disk)) && ends == [bc.disk]
    {
      hide Bcache.Valid, Pinned, View, Spare, SafeSince, RecoverWrites, Recovered, DiskOk, Clean, ReservedOk;
      left := map[];
      boot, base, ends := cache.disk, |cache.writes|, [Recovered(geometry, cache.disk)];
      bc, g := cache, geometry;
      outstanding, committing, n := 0, false, 0;
      block := seq(LOGSIZE, i => 0);
      new;
      BootIsSafe(g, boot, bc.writes);
      RecoverFromLog(me);
      Unreserved();
    }

    /** A crash after any write since boot would have recovered to one of `ends`. */
    ghost predicate Durable()
      reads this`ends, bc`writes, bc`disk
    {
      SafeSince(g, boot, base, bc.writes, ends, bc.disk)
    }

    /**
     If the machine stops after any of the writes since boot, initlog accepts the disk it
     finds then and recovers what readers saw at the end of the last group whose header
     was written; a later stop never recovers an older state, and now the disk holds the last.
     */
    lemma {:induction false} CrashAfter(i: nat, j: nat)
      requires Durable() && base <= i <= j <= |bc.writes|
      ensures WritesFit(bc.writes[base..j], |boot|) && DiskOk(g, Apply(boot, bc.writes[base..j]))
      ensures CommitCount(g, bc.writes[base..i]) <= CommitCount(g, bc.writes[base..j]) < |ends|
      ensures SameHome(g, Recovered(g, Apply(boot, bc.writes[base..j])), ends[CommitCount(g, bc.writes[base..j])])
      ensures SameHome(g, bc.disk, ends[|ends| - 1])
    {
      hide Recovered, SameHome, Apply, DiskOk, CommitCount;
      var ws := bc.writes[base..];
      assert bc.writes[base..i] == ws[..i - base] && bc.writes[base..j] == ws[..j - base];
      CrashRecovers(g, boot, ws, ends, i - base, j - base);
      LastEnd(g, boot, ws, ends);
    }

    ghost predicate HeaderOk()
      reads this`n, this`block, bc`disk
    {
      |block| == LOGSIZE && n <= LOGSIZE && Fits(g, |bc.disk|, block[..n])
    }

    ghost function Members(): (s: set<nat>)
      reads this`n, this`block
      requires n <= |block|
    {
      ToSet(block[..n])
    }

    /** The blocks R that others read during a commit are neither of the group nor of the log. */
    ghost predicate Elsewhere(R: set<nat>)
      reads this`n, this`block
      requires n <= |block|
    {
      R !! Members() && forall r :: r in R ==> !InLog(g, r)
    }

    lemma {:induction false} HeadFits()
      requires HeaderOk()
      ensures 0 < g.size && g.start + g.size <= |bc.disk|
    {
    }

    lemma {:induction false} HeaderNotMember(R: set<nat>)
      requires HeaderOk() && Elsewhere(R)
      ensures g.start !in Members() + R
    {
      assert InLog(g, g.start);
    }

    /** write_log. */
    method WriteLog(me: nat, ghost R: set<nat>)
      requires HeaderOk() && Quiet(bc, Members(), R) && Elsewhere(R) && me != 0
      modifies bc`bufs, bc`users, bc`next, bc`prev, bc`ring, bc`disk, bc`writes
      ensures HeaderOk() && Quiet(bc, Members(), R) && |bc.disk| == |old(bc.disk)|
      ensures Copied(g, block[..n], old(View(bc.bufs, bc.disk)), View(bc.bufs, bc.disk), n)
      ensures bc.writes == old(bc.writes) + LogWrites(g, Vals(old(View(bc.bufs, bc.disk)), block[..n]))
    {
      hide Bcache.Valid, Pinned, Copied, View, Quiet, Busy;
      ghost var view := View(bc.bufs, bc.disk);
      ghost var blocks := block[..n];
      Start(g, blocks, view);
      ghost var ws := LogWrites(g, Vals(view, blocks));
      var tail := 0;
      while tail < n
        invariant tail <= n && |bc.disk| == |view| && Quiet(bc, Members(), R)
        invariant Copied(g, blocks, view, View(bc.bufs, bc.disk), tail)
        invariant bc.writes == old(bc.writes) + ws[..tail]
      {
        assert blocks[tail] == block[tail];
        ghost var v := View(bc.bufs, bc.disk);
        CopiedStep(g, blocks, view, v, tail);
        assert InLog(g, g.start + tail + 1) && block[tail] in Members();
        LogBlock(bc, block[tail], g.start + tail + 1, me, Members(), R);
        assert ws[tail] == Write(g.start + tail + 1, v[block[tail]]);
        TakeMore(ws, tail);
        tail := tail + 1;
      }
      assert ws[..n] == ws;
    }

    /** install_trans. */
    method InstallTrans(recovering: bool, me: nat, ghost R: set<nat>)
      requires HeaderOk() && Quiet(bc, if recovering then {} else Members(), R) && Elsewhere(R)
      requires (recovering ==> R == {}) && me != 0
      modifies bc`bufs, bc`users, bc`next, bc`prev, bc`ring, bc`disk, bc`writes, bc`pins
      ensures HeaderOk() && Quiet(bc, {}, R) && |bc.disk| == |old(bc.disk)|
      ensures Homed(g, block[..n], old(View(bc.bufs, bc.disk)), View(bc.bufs, bc.disk), n)
      ensures bc.writes == old(bc.writes) + InstallWrites(block[..n], Logged(g, old(View(bc.bufs, bc.disk)), n))
    {
      hide Bcache.Valid, Pinned, Homed, View, Quiet, Busy;
      ghost var view := View(bc.bufs, bc.disk);
      ghost var blocks := block[..n];
      Start(g, blocks, view);
      ghost var ws := InstallWrites(blocks, Logged(g, view, n));
      ghost var P := if recovering then {} else Members();
      var tail := 0;
      while tail < n
        invariant tail <= n && |bc.disk| == |view|
        invariant P == if recovering then {} else ToSet(blocks[tail..])
        invariant Quiet(bc, P, R)
        invariant Homed(g, blocks, view, View(bc.bufs, bc.disk), tail)
        invariant bc.writes == old(bc.writes) + ws[..tail]
      {
        assert blocks[tail] == block[tail];
        ghost var v := View(bc.bufs, bc.disk);
        HomedStep(g, blocks, view, v, tail);
        assert InLog(g, g.start + tail + 1);
        assert block[tail] in Members();
        InstallBlock(bc, g.start + tail + 1, block[tail], me, recovering, P, R);
        TakeMore(ws, tail);
        TailSet(blocks, tail);
        P := P - {block[tail]};
        tail := tail + 1;
      }
      assert ws[..n] == ws;
      assert P == {};
    }

    /** write_head: hb->n, then the block numbers one by one. */
    method WriteHead(me: nat, ghost P: set<nat>, ghost R: set<nat>)
      requires HeaderOk() && Quiet(bc, P, R) && g.start !in P + R && me != 0
      modifies bc`bufs, bc`users, bc`next, bc`prev, bc`ring, bc`disk, bc`writes
      ensures HeaderOk() && Quiet(bc, P, R) && |bc.disk| == |old(bc.disk)|
      ensures View(bc.bufs, bc.disk)
           == old(View(bc.bufs, bc.disk)[g.start := Encode(View(bc.bufs, bc.disk)[g.start], block[..n])])
      ensures bc.writes == old(bc.writes) + [HeadWrite(g, old(View(bc.bufs, bc.disk)[g.start]), block[..n])]
    {
      hide Bcache.Valid, Pinned, View;
      var b := Get(bc, g.start, me, P, {}, R);
      var hb := FillHead(bc.bufs[b].data, n, block);
      Overwrite(bc, b, me, hb, P, {b}, R);
      Put(bc, b, me, P, {b}, R);
    }

    /** commit. */
    method Commit(me: nat, ghost R: set<nat>)
      requires committing
      requires HeaderOk() && Quiet(bc, Members(), R) && Elsewhere(R) && Durable() && me != 0
      modifies this`n, this`ends, bc`bufs, bc`users, bc`next, bc`prev, bc`ring, bc`disk, bc`writes, bc`pins
      ensures HeaderOk() && Quiet(bc, {}, R) && n == 0 && |bc.disk| == |old(bc.disk)|
      ensures SameHome(g, View(bc.bufs, bc.disk), old(View(bc.bufs, bc.disk)))
      ensures Durable() && ends == if old(n) == 0 then old(ends) else old(ends) + [old(View(bc.bufs, bc.disk))]
      ensures View(bc.bufs, bc.disk) == bc.disk
      ensures var view := old(View(bc.bufs, bc.disk));
              var blocks := old(block[..n]);
              bc.writes == old(bc.writes) + CommitWrites(g, view[g.start], Group(blocks, Vals(view, blocks)))
    {
      hide Bcache.Valid, Pinned, View, CommitWrites, SameHome, SafeSince;
      NothingToCommit(g, View(bc.bufs, bc.disk), block);
      HeadFits();
      if n > 0 {
        ghost var view := View(bc.bufs, bc.disk);
        ghost var ws := CommitWrites(g, view[g.start], Group(block[..n], Vals(view, block[..n])));
        WillCommit(bc, g, boot, base, ends, block[..n], R);
        TraceNow(bc);
        CommitGroup(me, R);
        TraceGrows(bc, old(bc.writes), old(bc.disk), ws);
        ends := ends + [view];
      }
      CleanView(bc, R);
    }

    method CommitGroup(me: nat, ghost R: set<nat>)
      requires HeaderOk() && Quiet(bc, Members(), R) && Elsewhere(R) && n > 0 && me != 0
      modifies this`n, bc`bufs, bc`users, bc`next, bc`prev, bc`ring, bc`disk, bc`writes, bc`pins
      ensures HeaderOk() && Quiet(bc, {}, R) && n == 0 && |bc.disk| == |old(bc.disk)|
      ensures SameHome(g, View(bc.bufs, bc.disk), old(View(bc.bufs, bc.disk)))
      ensures var view := old(View(bc.bufs, bc.disk));
              var blocks := old(block[..n]);
              bc.writes == old(bc.writes) + CommitWrites(g, view[g.start], Group(blocks, Vals(view, blocks)))
    {
      hide Bcache.Valid, Pinned, View, Copied, Homed, Fits, InstallWrites, LogWrites, CommitWrites, SameHome;
      NothingToCommit(g, View(bc.bufs, bc.disk), block);
      HeadFits();
      ghost var blocks := block[..n];
      ghost var v0 := View(bc.bufs, bc.disk);
      WriteLog(me, R);
      ghost var v1 := View(bc.bufs, bc.disk);
      HeaderNotMember(R);
      WriteHead(me, Members(), R);
      ghost var v2 := View(bc.bufs, bc.disk);
      InstallTrans(false, me, R);
      ghost var v3 := View(bc.bufs, bc.disk);
      HeadFits();
      n := 0;
      NoBlocksFit(g, |bc.disk|);
      WriteHead(me, {}, R);
      ghost var v4 := View(bc.bufs, bc.disk);
      CommitPhases(g, blocks, v0, v1, v2, v3, v4);
    }

    /** read_head. */
    method ReadHead(me: nat)
      requires |block| == LOGSIZE && Quiet(bc, {}, {}) && DiskOk(g, bc.disk) && me != 0
      modifies this`n, this`block, bc`bufs, bc`users, bc`next, bc`prev, bc`ring
      ensures HeaderOk() && Quiet(bc, {}, {})
      ensures View(bc.bufs, bc.disk) == old(View(bc.bufs, bc.disk))
      ensures block[..n] == Decode(bc.disk[g.start])
    {
      UnpinnedIsOnDisk(bc, {}, {}, {}, g.start);
      hide Bcache.Valid, Pinned, View;
      var b := Get(bc, g.start, me, {}, {}, {});
      n := bc.bufs[b].data[0];
      block := ReadBlocks(bc.bufs[b].data, block);
      Put(bc, b, me, {}, {b}, {});
    }

    /** recover_from_log. */
    method RecoverFromLog(me: nat)
      requires |block| == LOGSIZE && Quiet(bc, {}, {}) && DiskOk(g, bc.disk) && me != 0
      modifies this`n, this`block, bc`bufs, bc`users, bc`next, bc`prev, bc`ring, bc`disk, bc`writes, bc`pins
      ensures HeaderOk() && Quiet(bc, {}, {}) && n == 0
      ensures bc.writes == old(bc.writes) + RecoverWrites(g, old(bc.disk))
      ensures View(bc.bufs, bc.disk) == bc.disk == Recovered(g, old(bc.disk)) && Clean(g, bc.disk)
    {
      hide Bcache.Valid, Pinned, View, Homed, Fits, RecoverWrites, InstallWrites, HomeBlocks;
      ghost var disk := bc.disk;
      TraceNow(bc);
      ReadHead(me);
      CleanView(bc, {});
      InstallTrans(true, me, {});
      RecoverPhases(g, disk, View(bc.bufs, bc.disk));
      n := 0;
      assert block[..0] == [];
      NoBlocksFit(g, |bc.disk|);
      WriteHead(me, {}, {});
      CleanView(bc, {});
      TraceGrows(bc, old(bc.writes), disk, RecoverWrites(g, disk));
      RecoveryCompletes(g, disk);
    }

    /** The reservation protocol's invariant, for operations that keep one block in reserve. */
    ghost predicate ReservedOk()
      reads this`n, this`left, this`committing, this`outstanding
    {
      && Reservation.Inv(Reservation.MAXOPBLOCKS - 1, Reservation.State(n, left, committing)) && outstanding == |left|
    }

    lemma {:induction false} Unreserved()
      requires left == map[] && n == 0 && outstanding == 0 && !committing
      ensures ReservedOk()
    {
      Reservation.NothingLogged(Reservation.MAXOPBLOCKS - 1);
    }

    /** One turn of begin_op's loop: reserve, or report that the caller must sleep. */
    method BeginOp(ghost op: nat) returns (started: bool)
      requires ReservedOk() && op !in left
      modifies this`outstanding, this`left
      ensures ReservedOk()
      ensures started <==> !committing && Reservation.HasRoom(n, old(outstanding))
      ensures started ==> outstanding == old(outstanding) + 1 && left == old(left)[op := Reservation.MAXOPBLOCKS]
      ensures !started ==> outstanding == old(outstanding) && left == old(left)
    {
      if committing {
        started := false;
      } else if n + (outstanding + 1) * Reservation.MAXOPBLOCKS > LOGSIZE {
        started := false;
      } else {
        Reservation.BeginKeeps(Reservation.MAXOPBLOCKS - 1, n, left, op);
        Reservation.OneLess(left[op := Reservation.MAXOPBLOCKS], op);
        assert left[op := Reservation.MAXOPBLOCKS] - {op} == left;
        left := left[op := Reservation.MAXOPBLOCKS];
        outstanding := outstanding + 1;
        started := true;
      }
    }

    /**
     log_write: record the block and pin its buffer, unless it is recorded
     already.  Neither panic is reachable while operations record fewer than
     MAXOPBLOCKS new blocks and the log area has at least LOGSIZE blocks.
     */
    method LogWrite(b: nat, me: nat, ghost op: nat)
      requires HeaderOk() && bc.Valid() && Pinned(bc.bufs, bc.pins, Members()) && ReservedOk()
      requires LOGSIZE <= g.size && op in left && b < NBUF && me != 0
      requires bc.bufs[b].owner == me && bc.bufs[b].valid && !InLog(g, bc.bufs[b].blockno)
      requires bc.bufs[b].blockno !in Members() ==> 1 < left[op]
      modifies this`n, this`block, this`left, bc`bufs, bc`pins
      ensures HeaderOk() && bc.Valid() && Pinned(bc.bufs, bc.pins, Members()) && ReservedOk()
      ensures Members() == old(Members()) + {old(bc.bufs[b].blockno)}
      ensures View(bc.bufs, bc.disk) == old(View(bc.bufs, bc.disk)) && bc.disk == old(bc.disk)
      ensures old(bc.bufs[b].blockno in Members()) ==>
                n == old(n) && left == old(left) && bc.bufs == old(bc.bufs) && bc.pins == old(bc.pins)
      ensures old(bc.bufs[b].blockno !in Members()) ==>
                && n == old(n) + 1 && left == old(left)[op := old(left)[op] - 1]
                && bc.bufs == old(bc.bufs)[b := old(bc.bufs)[b].(refcnt := old(bc.bufs)[b].refcnt + 1)]
                && bc.pins == old(bc.pins)[b := old(bc.pins)[b] + 1]
      ensures |bc.pins| == NBUF && bc.pins[b] > 0
    {
      hide Bcache.RingOk, Bcache.CleanOk, Bcache.TraceOk, Unique, Pinned, View, Fits, Reservation.Sum,
           Reservation.Tight;
      Reservation.LoggedBound(Reservation.MAXOPBLOCKS - 1, n, left, op);
      assert !(n >= LOGSIZE || n >= g.size - 1);
      assert !(outstanding < 1) by { assert left != map[]; }
      PinnedAt(bc.bufs, bc.pins, Members(), b);
      var i := FindBlock(bc.bufs[b].blockno);
      if i < n {
        Restate(block, i);
        block := block[i := bc.bufs[b].blockno];
      } else {
        Reservation.LogKeeps(Reservation.MAXOPBLOCKS - 1, n, left, op);
        assert left[op := left[op] - 1].Keys == left.Keys;
        left := left[op := left[op] - 1];
        AddBlock(b);
      }
    }

    /** The scan of log_write. */
    method FindBlock(blockno: nat) returns (i: nat)
      requires n <= |block|
      ensures i <= n && (i < n ==> block[i] == blockno)
      ensures i == n ==> blockno !in Members()
    {
      i := 0;
      while i < n
        invariant i <= n && blockno !in block[..i]
      {
        if block[i] == blockno {
          return;
        }
        i := i + 1;
      }
    }

    method AddBlock(b: nat)
      requires HeaderOk() && bc.Valid() && Pinned(bc.bufs, bc.pins, Members()) && b < NBUF
      requires n < LOGSIZE && n + 1 < g.size && bc.bufs[b].valid && !InLog(g, bc.bufs[b].blockno)
      requires bc.bufs[b].blockno !in Members()
      modifies this`n, this`block, bc`bufs, bc`pins
      ensures HeaderOk() && bc.Valid() && Pinned(bc.bufs, bc.pins, Members())
      ensures n == old(n) + 1 && Members() == old(Members()) + {old(bc.bufs[b].blockno)}
      ensures View(bc.bufs, bc.disk) == old(View(bc.bufs, bc.disk)) && bc.disk == old(bc.disk)
      ensures |bc.bufs| == |bc.pins| == NBUF
      ensures bc.bufs == old(bc.bufs)[b := old(bc.bufs)[b].(refcnt := old(bc.bufs)[b].refcnt + 1)]
      ensures bc.pins == old(bc.pins)[b := old(bc.pins)[b] + 1]
    {
      hide Bcache.Valid, Pinned, Fits, View, Unique;
      CacheFacts(bc, b);
      var blockno := bc.bufs[b].blockno;
      ghost var P := Members();
      FitsMore(g, |bc.disk|, block, n, blockno);
      block := block[n := blockno];
      bc.Bpin(b);
      n := n + 1;
      PinnedMore(old(bc.bufs), bc.bufs, old(bc.pins), P, b);
    }

    /** end_op: the last outstanding operation commits the group. */
    method EndOp(me: nat, ghost op: nat, ghost R: set<nat>) returns (woken: bool)
      requires HeaderOk() && ReservedOk() && op in left && me != 0
      requires outstanding == 1 ==> Quiet(bc, Members(), R) && Elsewhere(R)
      requires Durable()
      modifies this`n, this`outstanding, this`committing, this`left, this`ends
      modifies bc`bufs, bc`users, bc`next, bc`prev, bc`ring, bc`disk, bc`writes, bc`pins
      ensures HeaderOk() && ReservedOk() && left == old(left) - {op} && !committing
      ensures outstanding == old(outstanding) - 1 && |bc.disk| == |old(bc.disk)|
      ensures Durable()
      ensures old(committing || !Reservation.HasRoom(n, outstanding))
              ==> (!committing && Reservation.HasRoom(n, outstanding) ==> woken)
      ensures outstanding > 0 ==> unchanged(bc) && n == old(n) && ends == old(ends)
      ensures outstanding == 0 ==>
                && n == 0 && Quiet(bc, {}, R) && View(bc.bufs, bc.disk) == bc.disk
                && ends == (if old(n) == 0 then old(ends) else old(ends) + [old(View(bc.bufs, bc.disk))])
                && SameHome(g, View(bc.bufs, bc.disk), old(View(bc.bufs, bc.disk)))
                && (var view, blocks := old(View(bc.bufs, bc.disk)), old(block[..n]);
                    bc.writes == old(bc.writes) + CommitWrites(g, view[g.start], Group(blocks, Vals(view, blocks))))
    {
      hide Bcache.Valid, Pinned, View, Fits, SafeSince, CommitWrites;
      Reservation.StepKeeps(
        Reservation.MAXOPBLOCKS - 1, Reservation.State(n, left, committing), Reservation.End(op));
      Reservation.OneLess(left, op);
      outstanding := outstanding - 1;
      left := left - {op};
      assert !committing;
      if outstanding == 0 {
        committing := true;
        Commit(me, R);
        committing := false;
      }
      woken := true;
    }
  }

  lemma {:induction false} NoBlocksFit(g: Geometry, n: nat)
    requires 0 < g.size && g.start + g.size <= n
    ensures Fits(g, n, [])
  {
  }

  lemma {:induction false} CacheFacts(bc: Bcache, b: nat)
    requires bc.Valid() && b < NBUF
    ensures |bc.bufs| == |bc.pins| == NBUF
    ensures Unique(bc.bufs) && (bc.bufs[b].valid ==> bc.bufs[b].blockno < |bc.disk|)
    ensures forall i :: 0 <= i < |bc.bufs| ==> (bc.bufs[i].valid ==> bc.bufs[i].dev == ROOTDEV)
  {
    hide Bcache.RingOk, Bcache.TraceOk;
  }

  /** A valid buffer of a pinned block is pinned once, any other not. */
  lemma {:induction false} PinnedAt(bufs: seq<Buf>, pins: seq<nat>, P: set<nat>, b: nat)
    requires Pinned(bufs, pins, P) && b < |bufs| && bufs[b].valid
    ensures b < |pins| && pins[b] == if bufs[b].blockno in P then 1 else 0
  {
  }

  /** One more home block in the header. */
  lemma {:induction false} FitsMore(g: Geometry, size: nat, block: seq<nat>, n: nat, b: nat)
    requires n < |block| == LOGSIZE && Fits(g, size, block[..n]) && b < size && !InLog(g, b) && b !in ToSet(block[..n])
    requires n + 1 < g.size
    ensures Fits(g, size, block[n := b][..n + 1]) && ToSet(block[n := b][..n + 1]) == ToSet(block[..n]) + {b}
  {
    assert block[n := b][..n + 1] == block[..n] + [b];
    assert b !in block[..n];
  }

  lemma {:induction false} PinnedMore(bufs: seq<Buf>, bufs': seq<Buf>, pins: seq<nat>, P: set<nat>, b: nat)
    requires Pinned(bufs, pins, P) && Unique(bufs) && b < |bufs| && bufs[b].valid && bufs[b].blockno !in P
    requires forall i :: 0 <= i < |bufs| ==> (bufs[i].valid ==> bufs[i].dev == ROOTDEV)
    requires |bufs'| == |bufs| && bufs' == bufs[b := bufs[b].(refcnt := bufs'[b].refcnt)]
    ensures Pinned(bufs', pins[b := pins[b] + 1], P + {bufs[b].blockno})
  {
    assert bufs'[b].valid && Caches(bufs'[b], bufs[b].blockno);
    forall x | x in P ensures exists i :: 0 <= i < |bufs'| && bufs'[i].valid && Caches(bufs'[i], x) {
      var i :| 0 <= i < |bufs| && bufs[i].valid && Caches(bufs[i], x);
      assert bufs'[i].valid && Caches(bufs'[i], x);
    }
  }

  // ----- what a crash finds ------------------------------------------------------------------

  /**
   The disk is what the writes since boot made of it, its header is clear, and after
   every one of those writes a crash would recover to one of `ends`.
   */
  ghost predicate SafeSince(g: Geometry, boot: Disk, base: nat, writes: seq<Write>, ends: seq<Disk>, disk: Disk) {
    && base <= |writes| && CrashSafe(g, boot, writes[base..], ends)
    && disk == Apply(boot, writes[base..]) && Clean(g, disk)
  }

  lemma {:induction false} BootIsSafe(g: Geometry, boot: Disk, writes: seq<Write>)
    requires DiskOk(g, boot)
    ensures SafeSince(g, boot, |writes|, writes + RecoverWrites(g, boot), [Recovered(g, boot)], Recovered(g, boot))
  {
    hide CrashSafe, Apply, RecoverWrites;
    var ws := RecoverWrites(g, boot);
    assert (writes + ws)[|writes|..] == ws;
    BootSafe(g, boot);
    RecoveryCompletes(g, boot);
  }

  lemma {:induction false} TraceNow(bc: Bcache)
    requires bc.Valid()
    ensures WritesFit(bc.writes, |bc.disk0|) && bc.disk == Apply(bc.disk0, bc.writes)
  {
  }

  /** The disk follows the writes. */
  lemma {:induction false} TraceGrows(bc: Bcache, w0: seq<Write>, disk: Disk, ws: seq<Write>)
    requires bc.Valid() && bc.writes == w0 + ws && WritesFit(w0, |bc.disk0|) && disk == Apply(bc.disk0, w0)
    ensures WritesFit(ws, |disk|) && bc.disk == Apply(disk, ws)
  {
    hide Bcache.RingOk, Bcache.CountsOk, Bcache.CleanOk, Unique;
    forall i | 0 <= i < |ws| ensures ws[i].blockno < |disk| {
      assert (w0 + ws)[|w0| + i] == ws[i];
    }
    ApplyConcat(bc.disk0, w0, ws);
  }

  /** The group is the difference between the disk and what readers see. */
  lemma {:induction false} GroupIsView(bc: Bcache, g: Geometry, blocks: seq<nat>, R: set<nat>)
    requires Fits(g, |bc.disk|, blocks) && Busy(bc, ToSet(blocks), {}, R)
    ensures Update(bc.disk, Group(blocks, Vals(View(bc.bufs, bc.disk), blocks))) == View(bc.bufs, bc.disk)
    ensures g.start !in blocks && bc.disk[g.start] == View(bc.bufs, bc.disk)[g.start]
  {
    var view := View(bc.bufs, bc.disk);
    var group := Group(blocks, Vals(view, blocks));
    forall n | 0 <= n < |bc.disk| ensures Update(bc.disk, group)[n] == view[n] {
      UpdateAt(bc.disk, group, n);
      if n !in blocks {
        UnpinnedIsOnDisk(bc, ToSet(blocks), {}, R, n);
      }
    }
    assert InLog(g, g.start);
    UnpinnedIsOnDisk(bc, ToSet(blocks), {}, R, g.start);
  }

  /** The writes of a commit keep every crash point safe. */
  lemma {:induction false} CommitKeepsSafe(g: Geometry, boot: Disk, base: nat, writes: seq<Write>, ends: seq<Disk>,
                                           disk: Disk, group: Group, view: Disk)
    requires SafeSince(g, boot, base, writes, ends, disk) && GroupOk(g, |disk|, group) && group.blocks != []
    requires SameHome(g, view, Update(disk, group))
    ensures g.start < |disk|
    ensures var ws := CommitWrites(g, disk[g.start], group);
            && WritesFit(ws, |disk|)
            && SafeSince(g, boot, base, writes + ws, ends + [view], Apply(disk, ws))
  {
    hide Apply, CrashSafe, CommitWrites, SameHome, Update, Recovered;
    var ws := CommitWrites(g, disk[g.start], group);
    SafeFits(g, boot, writes[base..], ends);
    CommitSafe(g, boot, writes[base..], ends, group, view);
    CommitEnds(g, disk, group);
    ApplyConcat(boot, writes[base..], ws);
    assert (writes + ws)[base..] == writes[base..] + ws;
  }

  /** Before commit starts: its writes will keep every crash point safe. */
  lemma {:induction false} WillCommit(
      bc: Bcache, g: Geometry, boot: Disk, base: nat, ends: seq<Disk>, blocks: seq<nat>, R: set<nat>)
    requires Fits(g, |bc.disk|, blocks) && Busy(bc, ToSet(blocks), {}, R) && blocks != []
    requires SafeSince(g, boot, base, bc.writes, ends, bc.disk)
    ensures var view := View(bc.bufs, bc.disk);
            var ws := CommitWrites(g, view[g.start], Group(blocks, Vals(view, blocks)));
            && WritesFit(ws, |bc.disk|)
            && SafeSince(g, boot, base, bc.writes + ws, ends + [view], Apply(bc.disk, ws))
  {
    hide Bcache.Valid, Pinned, View, Busy, Apply, CommitWrites, SafeSince, Update;
    GroupIsView(bc, g, blocks, R);
    var view := View(bc.bufs, bc.disk);
    CommitKeepsSafe(g, boot, base, bc.writes, ends, bc.disk, Group(blocks, Vals(view, blocks)), view);
  }

  lemma {:induction false} SafeFits(g: Geometry, boot: Disk, ws: seq<Write>, ends: seq<Disk>)
    requires CrashSafe(g, boot, ws, ends)
    ensures WritesFit(ws, |boot|)
  {
  }

  /**
   What a crash inside commit can cost: after any number of its writes, recovery
   gives either the last committed state (the disk's) or the state every reader
   of the cache saw when the group ended, nothing in between.
   */
  lemma {:induction false} CrashLosesWholeGroup(bc: Bcache, g: Geometry, blocks: seq<nat>, R: set<nat>, k: nat)
    requires Fits(g, |bc.disk|, blocks) && Busy(bc, ToSet(blocks), {}, R) && Clean(g, bc.disk)
    requires k <= |CommitWrites(g, bc.disk[g.start], Group(blocks, Vals(View(bc.bufs, bc.disk), blocks)))|
    ensures var ws := CommitWrites(g, bc.disk[g.start], Group(blocks, Vals(View(bc.bufs, bc.disk), blocks)))[..k];
            && WritesFit(ws, |bc.disk|)
            && DiskOk(g, Apply(bc.disk, ws))
            && SameHome(g, Recovered(g, Apply(bc.disk, ws)), if k <= |blocks| then bc.disk else View(bc.bufs, bc.disk))
  {
    GroupIsView(bc, g, blocks, R);
    hide Bcache.Valid, Pinned, View, Busy;
    CrashInCommit(g, bc.disk, Group(blocks, Vals(View(bc.bufs, bc.disk), blocks)), k);
  }
}
