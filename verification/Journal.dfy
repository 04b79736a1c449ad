/**
 The redo log of kernel/log.c as the disk sees it: a disk is a sequence of
 blocks, every `bwrite` replaces one block atomically, and a crash may fall
 between any two of them.  This module gives the write sequences that commit
 and recovery issue, and proves what recovery makes of every prefix of them.
 */
module Journal {
  import opened Sequences

  const LOGSIZE: nat := 30
  const WORDS: nat := 256   // 32-bit words in a block of BSIZE bytes

  type Block = b: seq<nat> | |b| == WORDS witness seq(WORDS, i => 0)
  type Disk = seq<Block>

  datatype Write = Write(blockno: nat, data: Block)

  /** Where the log lives: header at `start`, log blocks in the `size - 1` after it. */
  datatype Geometry = Geometry(start: nat, size: nat)

  predicate InLog(g: Geometry, b: nat) {
    g.start <= b < g.start + g.size
  }

  // ----- the header block ---------------------------------------------------

  /** The header block as write_head leaves it: stale words past the count survive. */
  function Encode(stale: Block, blocks: seq<nat>): (b: Block)
    requires |blocks| <= LOGSIZE
  {
    [|blocks|] + blocks + stale[1 + |blocks|..]
  }

  /** The block numbers read_head finds. */
  function Decode(b: Block): (blocks: seq<nat>)
    requires b[0] <= LOGSIZE
  {
    b[1..1 + b[0]]
  }

  lemma {:induction false} DecodeEncode(stale: Block, blocks: seq<nat>)
    requires |blocks| <= LOGSIZE
    ensures Encode(stale, blocks)[0] <= LOGSIZE && Decode(Encode(stale, blocks)) == blocks
  {
    var b := Encode(stale, blocks);
    assert b[0] == |blocks|;
    assert forall i :: 0 <= i < |blocks| ==> Decode(b)[i] == blocks[i];
  }

  // ----- sequences of writes ------------------------------------------------

  ghost predicate WritesFit(ws: seq<Write>, n: nat) {
    forall i :: 0 <= i < |ws| ==> ws[i].blockno < n
  }

  /** The disk after the writes `ws`, in order. */
  ghost function Apply(disk: Disk, ws: seq<Write>): (d: Disk)
    requires WritesFit(ws, |disk|)
    ensures |d| == |disk|
  {
    if ws == [] then disk
    else
      var last := ws[|ws| - 1];
      Apply(disk, ws[..|ws| - 1])[last.blockno := last.data]
  }

  lemma ApplyOther(disk: Disk, ws: seq<Write>, b: nat)
    requires WritesFit(ws, |disk|) && b < |disk|
    requires forall i :: 0 <= i < |ws| ==> ws[i].blockno != b
    ensures Apply(disk, ws)[b] == disk[b]
  {
  }

  /** A block written at position `i` and not after it holds what was written there. */
  lemma {:induction false} ApplyLast(disk: Disk, ws: seq<Write>, i: nat)
    requires WritesFit(ws, |disk|) && i < |ws|
    requires forall j :: i < j < |ws| ==> ws[j].blockno != ws[i].blockno
    ensures Apply(disk, ws)[ws[i].blockno] == ws[i].data
  {
    if i < |ws| - 1 {
      var init := ws[..|ws| - 1];
      assert init[i] == ws[i];
      ApplyLast(disk, init, i);
    }
  }

  lemma {:induction false} ApplyConcat(disk: Disk, a: seq<Write>, b: seq<Write>)
    requires WritesFit(a, |disk|) && WritesFit(b, |disk|)
    ensures WritesFit(a + b, |disk|)
    ensures Apply(disk, a + b) == Apply(Apply(disk, a), b)
  {
    if b == [] {
      assert a + b == a;
    } else {
      assert (a + b)[..|a + b| - 1] == a + b[..|b| - 1];
      ApplyConcat(disk, a, b[..|b| - 1]);
    }
  }

  lemma {:induction false} TakeConcat<T>(a: seq<T>, b: seq<T>, k: nat)
    requires k <= |a| + |b|
    ensures (a + b)[..k] == if k <= |a| then a[..k] else a + b[..k - |a|]
  {
  }

  // ----- what commit and recovery write -------------------------------------

  /** A group of operations committed together: home block numbers and their new contents. */
  datatype Group = Group(blocks: seq<nat>, vals: seq<Block>)

  ghost predicate HomeBlocks(g: Geometry, n: nat, blocks: seq<nat>) {
    && |blocks| <= LOGSIZE && |blocks| < g.size
    && Distinct(blocks)
    && forall i :: 0 <= i < |blocks| ==> blocks[i] < n && !InLog(g, blocks[i])
  }

  ghost predicate GroupOk(g: Geometry, n: nat, group: Group) {
    |group.blocks| == |group.vals| && HomeBlocks(g, n, group.blocks)
  }

  /** write_log: copy the cached blocks into the log. */
  function LogWrites(g: Geometry, vals: seq<Block>): (ws: seq<Write>)
  {
    seq(|vals|, i requires 0 <= i < |vals| => Write(g.start + 1 + i, vals[i]))
  }

  /** install_trans: copy log blocks to their homes. */
  function InstallWrites(blocks: seq<nat>, vals: seq<Block>): (ws: seq<Write>)
    requires |blocks| == |vals|
  {
    seq(|blocks|, i requires 0 <= i < |blocks| => Write(blocks[i], vals[i]))
  }

  /** write_head. */
  function HeadWrite(g: Geometry, stale: Block, blocks: seq<nat>): (w: Write)
    requires |blocks| <= LOGSIZE
  {
    Write(g.start, Encode(stale, blocks))
  }

  /** The writes up to and including the one that commits. */
  function CommitHalf(g: Geometry, header: Block, group: Group): (ws: seq<Write>)
    requires |group.blocks| == |group.vals| <= LOGSIZE
  {
    LogWrites(g, group.vals) + [HeadWrite(g, header, group.blocks)]
  }

  /** Installation, and the header cleared after it. */
  function InstallHalf(g: Geometry, header: Block, group: Group): (ws: seq<Write>)
    requires |group.blocks| == |group.vals| <= LOGSIZE
  {
    InstallWrites(group.blocks, group.vals) + [HeadWrite(g, header, [])]
  }

  /** commit: log blocks, header, home blocks, cleared header; nothing for an empty group. */
  function CommitWrites(g: Geometry, header: Block, group: Group): (ws: seq<Write>)
    requires |group.blocks| == |group.vals| <= LOGSIZE
  {
    if |group.blocks| == 0 then []
    else CommitHalf(g, header, group) + InstallHalf(g, Encode(header, group.blocks), group)
  }

  ghost predicate DiskOk(g: Geometry, disk: Disk) {
    && 0 < g.size && g.start + g.size <= |disk|
    && disk[g.start][0] <= LOGSIZE
    && HomeBlocks(g, |disk|, Decode(disk[g.start]))
  }

  function Logged(g: Geometry, disk: Disk, n: nat): (vals: seq<Block>)
    requires g.start + n < |disk|
  {
    disk[g.start + 1..g.start + 1 + n]
  }

  /** recover_from_log: install what the header names, then clear the header. */
  ghost function RecoverWrites(g: Geometry, disk: Disk): (ws: seq<Write>)
    requires DiskOk(g, disk)
  {
    var blocks := Decode(disk[g.start]);
    InstallHalf(g, disk[g.start], Group(blocks, Logged(g, disk, |blocks|)))
  }

  ghost function Recovered(g: Geometry, disk: Disk): (d: Disk)
    requires DiskOk(g, disk)
    ensures |d| == |disk|
  {
    Apply(disk, RecoverWrites(g, disk))
  }

  /** The home blocks a reader sees when `blocks` hold `vals`. */
  ghost function Update(disk: Disk, group: Group): (d: Disk)
    requires |group.blocks| == |group.vals|
    requires forall i :: 0 <= i < |group.blocks| ==> group.blocks[i] < |disk|
    ensures |d| == |disk|
  {
    Apply(disk, InstallWrites(group.blocks, group.vals))
  }

  ghost predicate SameHome(g: Geometry, a: Disk, b: Disk) {
    |a| == |b| && forall i :: 0 <= i < |a| && !InLog(g, i) ==> a[i] == b[i]
  }

  /** Block by block, what a (partial) installation leaves. */
  lemma {:induction false} InstallAt(disk: Disk, blocks: seq<nat>, vals: seq<Block>, k: nat, b: nat)
    requires |blocks| == |vals| && Distinct(blocks) && k <= |blocks| && b < |disk|
    requires forall i :: 0 <= i < |blocks| ==> blocks[i] < |disk|
    ensures WritesFit(InstallWrites(blocks, vals)[..k], |disk|)
    ensures forall i :: 0 <= i < k && blocks[i] == b ==>
              Apply(disk, InstallWrites(blocks, vals)[..k])[b] == vals[i]
    ensures b !in blocks[..k] ==> Apply(disk, InstallWrites(blocks, vals)[..k])[b] == disk[b]
  {
    var ws := InstallWrites(blocks, vals)[..k];
    if i :| 0 <= i < k && blocks[i] == b {
      ApplyLast(disk, ws, i);
    } else {
      assert forall i :: 0 <= i < k ==> ws[i].blockno == blocks[..k][i];
      ApplyOther(disk, ws, b);
    }
  }

  /** What recovery makes of each home block: the logged copy if the header names it. */
  lemma {:induction false} RecoveredAt(g: Geometry, disk: Disk, b: nat)
    requires DiskOk(g, disk) && b < |disk| && !InLog(g, b)
    ensures var blocks := Decode(disk[g.start]);
            && (forall i :: 0 <= i < |blocks| && blocks[i] == b ==>
                 Recovered(g, disk)[b] == Logged(g, disk, |blocks|)[i])
            && (b !in blocks ==> Recovered(g, disk)[b] == disk[b])
  {
    var blocks := Decode(disk[g.start]);
    var ws := InstallWrites(blocks, Logged(g, disk, |blocks|));
    InstallAt(disk, blocks, Logged(g, disk, |blocks|), |blocks|, b);
    assert ws[..|blocks|] == ws && blocks[..|blocks|] == blocks;
    assert RecoverWrites(g, disk)[..|ws|] == ws;
  }

  lemma {:induction false} UpdateAt(disk: Disk, group: Group, b: nat)
    requires |group.blocks| == |group.vals| && Distinct(group.blocks) && b < |disk|
    requires forall i :: 0 <= i < |group.blocks| ==> group.blocks[i] < |disk|
    ensures forall i :: 0 <= i < |group.blocks| && group.blocks[i] == b ==> Update(disk, group)[b] == group.vals[i]
    ensures b !in group.blocks ==> Update(disk, group)[b] == disk[b]
  {
    var n := |group.blocks|;
    InstallAt(disk, group.blocks, group.vals, n, b);
    assert InstallWrites(group.blocks, group.vals)[..n] == InstallWrites(group.blocks, group.vals);
    assert group.blocks[..n] == group.blocks;
  }

  // ----- one crash ----------------------------------------------------------

  /** The first `k` writes of write_log touch neither the header nor any home block. */
  lemma {:induction false} CrashWhileLogging(g: Geometry, disk: Disk, vals: seq<Block>, k: nat)
    requires DiskOk(g, disk) && |vals| < g.size && k <= |vals|
    ensures WritesFit(LogWrites(g, vals)[..k], |disk|)
    ensures SameHome(g, Apply(disk, LogWrites(g, vals)[..k]), disk)
    ensures Apply(disk, LogWrites(g, vals)[..k])[g.start] == disk[g.start]
  {
    var ws := LogWrites(g, vals)[..k];
    forall b | 0 <= b < |disk| && (!InLog(g, b) || b == g.start) ensures Apply(disk, ws)[b] == disk[b] {
      ApplyOther(disk, ws, b);
    }
  }

  lemma {:induction false} LoggingStores(g: Geometry, disk: Disk, vals: seq<Block>)
    requires DiskOk(g, disk) && |vals| < g.size
    ensures WritesFit(LogWrites(g, vals), |disk|)
    ensures Logged(g, Apply(disk, LogWrites(g, vals)), |vals|) == vals
  {
    var d := Apply(disk, LogWrites(g, vals));
    forall i | 0 <= i < |vals| ensures Logged(g, d, |vals|)[i] == vals[i] {
      LogWriteAt(g, disk, vals, i);
    }
  }

  lemma {:induction false} LogWriteAt(g: Geometry, disk: Disk, vals: seq<Block>, i: nat)
    requires g.start + g.size <= |disk| && i < |vals| < g.size
    ensures WritesFit(LogWrites(g, vals), |disk|)
    ensures Apply(disk, LogWrites(g, vals))[g.start + 1 + i] == vals[i]
  {
    ApplyLast(disk, LogWrites(g, vals), i);
  }

  /** A disk whose header names the group, whose log holds it, and whose homes are partly installed. */
  ghost predicate Installing(g: Geometry, disk: Disk, group: Group, d: Disk) {
    && |d| == |disk|
    && DiskOk(g, d)
    && Decode(d[g.start]) == group.blocks
    && Logged(g, d, |group.blocks|) == group.vals
    && (forall b :: 0 <= b < |d| && !InLog(g, b) && b !in group.blocks ==> d[b] == disk[b])
  }

  lemma {:induction false} InstallingRecovers(g: Geometry, disk: Disk, group: Group, d: Disk)
    requires DiskOk(g, disk) && GroupOk(g, |disk|, group)
    requires Installing(g, disk, group, d)
    ensures SameHome(g, Recovered(g, d), Update(disk, group))
  {
    forall b | 0 <= b < |d| && !InLog(g, b) ensures Recovered(g, d)[b] == Update(disk, group)[b] {
      RecoveredAt(g, d, b);
      UpdateAt(disk, group, b);
      if b in group.blocks {
        var i :| 0 <= i < |group.blocks| && group.blocks[i] == b;
      }
    }
  }

  /** Installing any part of the group keeps the disk in that shape. */
  lemma {:induction false} InstallKeepsInstalling(g: Geometry, disk: Disk, group: Group, d: Disk, k: nat)
    requires DiskOk(g, disk) && GroupOk(g, |disk|, group)
    requires Installing(g, disk, group, d) && k <= |group.blocks|
    ensures WritesFit(InstallWrites(group.blocks, group.vals)[..k], |d|)
    ensures Installing(g, disk, group, Apply(d, InstallWrites(group.blocks, group.vals)[..k]))
  {
    var e := Apply(d, InstallWrites(group.blocks, group.vals)[..k]);
    forall b | 0 <= b < |d| && b !in group.blocks ensures e[b] == d[b] {
      InstallOther(d, group.blocks, group.vals, k, b);
    }
    LogUntouched(g, d, e, group.blocks);
  }

  lemma {:induction false} InstallOther(disk: Disk, blocks: seq<nat>, vals: seq<Block>, k: nat, b: nat)
    requires |blocks| == |vals| && k <= |blocks| && b < |disk| && b !in blocks
    requires WritesFit(InstallWrites(blocks, vals)[..k], |disk|)
    ensures Apply(disk, InstallWrites(blocks, vals)[..k])[b] == disk[b]
  {
    var ws := InstallWrites(blocks, vals)[..k];
    assert forall i :: 0 <= i < k ==> ws[i].blockno == blocks[i];
    ApplyOther(disk, ws, b);
  }

  /** Changing home blocks only leaves header and log as they were. */
  lemma {:induction false} LogUntouched(g: Geometry, d: Disk, e: Disk, blocks: seq<nat>)
    requires DiskOk(g, d) && |e| == |d| && HomeBlocks(g, |d|, blocks)
    requires forall b :: 0 <= b < |d| && b !in blocks ==> e[b] == d[b]
    ensures e[g.start] == d[g.start]
    ensures Logged(g, e, |blocks|) == Logged(g, d, |blocks|)
  {
    forall b | 0 <= b < |d| && InLog(g, b) ensures e[b] == d[b] {
      assert b !in blocks;
    }
  }

  lemma {:induction false} AllInstalled(g: Geometry, disk: Disk, group: Group, d: Disk)
    requires DiskOk(g, disk) && GroupOk(g, |disk|, group) && Installing(g, disk, group, d)
    ensures SameHome(g, Apply(d, InstallWrites(group.blocks, group.vals)), Update(disk, group))
  {
    var n := |group.blocks|;
    var ws := InstallWrites(group.blocks, group.vals);
    assert ws[..n] == ws && group.blocks[..n] == group.blocks;
    forall b | 0 <= b < |d| && !InLog(g, b) ensures Apply(d, ws)[b] == Update(disk, group)[b] {
      InstallAt(d, group.blocks, group.vals, n, b);
      UpdateAt(disk, group, b);
      if b in group.blocks {
        var i :| 0 <= i < n && group.blocks[i] == b;
      }
    }
  }

  lemma {:induction false} HeadWritten(g: Geometry, disk: Disk, blocks: seq<nat>)
    requires 0 < g.size && g.start + g.size <= |disk| && HomeBlocks(g, |disk|, blocks)
    ensures var d := Apply(disk, [HeadWrite(g, disk[g.start], blocks)]);
            && d == disk[g.start := Encode(disk[g.start], blocks)]
            && DiskOk(g, d) && Decode(d[g.start]) == blocks && SameHome(g, d, disk)
  {
    var w := HeadWrite(g, disk[g.start], blocks);
    assert [w][..0] == [];
    DecodeEncode(disk[g.start], blocks);
  }

  /** With an empty header recovery changes no home block. */
  lemma {:induction false} EmptyHeaderRecovers(g: Geometry, d: Disk)
    requires DiskOk(g, d) && Decode(d[g.start]) == []
    ensures SameHome(g, Recovered(g, d), d)
  {
    forall b | 0 <= b < |d| && !InLog(g, b) ensures Recovered(g, d)[b] == d[b] {
      RecoveredAt(g, d, b);
    }
  }

  /** The disk once the header of the group is written: the commit point. */
  lemma {:induction false} CommitPoint(g: Geometry, disk: Disk, group: Group)
    requires DiskOk(g, disk) && GroupOk(g, |disk|, group)
    ensures WritesFit(CommitHalf(g, disk[g.start], group), |disk|)
    ensures Installing(g, disk, group, Apply(disk, CommitHalf(g, disk[g.start], group)))
    ensures Apply(disk, CommitHalf(g, disk[g.start], group))[g.start] == Encode(disk[g.start], group.blocks)
  {
    var ws := LogWrites(g, group.vals);
    var d := LoggedAll(g, disk, group.vals);
    HeadWritten(g, d, group.blocks);
    ApplyConcat(disk, ws, [HeadWrite(g, disk[g.start], group.blocks)]);
    var e := Apply(d, [HeadWrite(g, disk[g.start], group.blocks)]);
    assert Logged(g, e, |group.vals|) == Logged(g, d, |group.vals|);
  }

  lemma {:induction false} LoggedAll(g: Geometry, disk: Disk, vals: seq<Block>) returns (d: Disk)
    requires DiskOk(g, disk) && |vals| < g.size
    ensures WritesFit(LogWrites(g, vals), |disk|) && d == Apply(disk, LogWrites(g, vals))
    ensures SameHome(g, d, disk) && d[g.start] == disk[g.start] && Logged(g, d, |vals|) == vals
  {
    assert LogWrites(g, vals)[..|vals|] == LogWrites(g, vals);
    CrashWhileLogging(g, disk, vals, |vals|);
    LoggingStores(g, disk, vals);
    d := Apply(disk, LogWrites(g, vals));
  }

  ghost predicate Clean(g: Geometry, disk: Disk) {
    DiskOk(g, disk) && Decode(disk[g.start]) == []
  }

  /** The group is at home, the header is empty, and recovery would leave it so. */
  ghost predicate Installed(g: Geometry, disk: Disk, group: Group, d: Disk)
    requires |group.blocks| == |group.vals|
    requires forall i :: 0 <= i < |group.blocks| ==> group.blocks[i] < |disk|
  {
    && Clean(g, d)
    && SameHome(g, d, Update(disk, group))
    && SameHome(g, Recovered(g, d), Update(disk, group))
  }

  /** Clearing the header of a fully installed disk. */
  lemma {:induction false} ClearAfterInstall(g: Geometry, disk: Disk, group: Group, d: Disk)
    requires DiskOk(g, disk) && GroupOk(g, |disk|, group) && Installing(g, disk, group, d)
    requires SameHome(g, d, Update(disk, group))
    ensures Installed(g, disk, group, Apply(d, [HeadWrite(g, d[g.start], [])]))
  {
    HeadWritten(g, d, []);
    EmptyHeaderRecovers(g, Apply(d, [HeadWrite(g, d[g.start], [])]));
  }

  /** Where a crash after `k` of the commit's writes leaves the group. */
  predicate CommittedBy(group: Group, k: nat) {
    |group.blocks| < k
  }

  /**
   Commit is atomic: whatever prefix of its writes reached the disk, recovery
   yields the home blocks of the old state or those of the whole group, and it
   is the group exactly when its header was among the writes.
   */
  lemma {:induction false} CrashInCommit(g: Geometry, disk: Disk, group: Group, k: nat)
    requires Clean(g, disk) && GroupOk(g, |disk|, group)
    requires k <= |CommitWrites(g, disk[g.start], group)|
    ensures WritesFit(CommitWrites(g, disk[g.start], group)[..k], |disk|)
    ensures var d := Apply(disk, CommitWrites(g, disk[g.start], group)[..k]);
            && DiskOk(g, d)
            && SameHome(g, Recovered(g, d), if CommittedBy(group, k) then Update(disk, group) else disk)
  {
    var n := |group.blocks|;
    var all := CommitWrites(g, disk[g.start], group);
    if k <= n {
      assert all[..k] == LogWrites(g, group.vals)[..k] by { FirstWrites(g, disk[g.start], group, k); }
      CrashBeforeCommit(g, disk, group.vals, k);
    } else {
      var half := CommitHalf(g, disk[g.start], group);
      var rest := InstallHalf(g, Encode(disk[g.start], group.blocks), group);
      TakeConcat(half, rest, k);
      CommitPoint(g, disk, group);
      var d := Apply(disk, half);
      CrashInInstall(g, disk, group, d, k - n - 1);
      ApplyConcat(disk, half, rest[..k - n - 1]);
    }
  }

  lemma {:induction false} FirstWrites(g: Geometry, header: Block, group: Group, k: nat)
    requires k <= |group.blocks| == |group.vals| <= LOGSIZE
    ensures k <= |CommitWrites(g, header, group)|
    ensures CommitWrites(g, header, group)[..k] == LogWrites(g, group.vals)[..k]
  {
    if k > 0 {
      TakeConcat(CommitHalf(g, header, group), InstallHalf(g, Encode(header, group.blocks), group), k);
      TakeConcat(LogWrites(g, group.vals), [HeadWrite(g, header, group.blocks)], k);
    }
  }

  lemma {:induction false} CrashBeforeCommit(g: Geometry, disk: Disk, vals: seq<Block>, k: nat)
    requires Clean(g, disk) && |vals| < g.size && k <= |vals|
    ensures WritesFit(LogWrites(g, vals)[..k], |disk|)
    ensures DiskOk(g, Apply(disk, LogWrites(g, vals)[..k]))
    ensures SameHome(g, Recovered(g, Apply(disk, LogWrites(g, vals)[..k])), disk)
  {
    CrashWhileLogging(g, disk, vals, k);
    EmptyHeaderRecovers(g, Apply(disk, LogWrites(g, vals)[..k]));
  }

  /** Past the commit point every prefix of the installation recovers to the whole group. */
  lemma {:induction false} CrashInInstall(g: Geometry, disk: Disk, group: Group, d: Disk, j: nat)
    requires DiskOk(g, disk) && GroupOk(g, |disk|, group) && Installing(g, disk, group, d)
    requires j <= |InstallHalf(g, d[g.start], group)|
    ensures WritesFit(InstallHalf(g, d[g.start], group)[..j], |d|)
    ensures DiskOk(g, Apply(d, InstallHalf(g, d[g.start], group)[..j]))
    ensures SameHome(g, Recovered(g, Apply(d, InstallHalf(g, d[g.start], group)[..j])), Update(disk, group))
  {
    var all := InstallHalf(g, d[g.start], group);
    if j <= |group.blocks| {
      assert all[..j] == InstallWrites(group.blocks, group.vals)[..j];
      InstallKeepsInstalling(g, disk, group, d, j);
      InstallingRecovers(g, disk, group, Apply(d, all[..j]));
    } else {
      assert all[..j] == all;
      InstallEnds(g, disk, group, d);
    }
  }

  /** A commit that runs to its end leaves the group at home and the header empty. */
  lemma {:induction false} CommitEnds(g: Geometry, disk: Disk, group: Group)
    requires Clean(g, disk) && GroupOk(g, |disk|, group)
    ensures WritesFit(CommitWrites(g, disk[g.start], group), |disk|)
    ensures Installed(g, disk, group, Apply(disk, CommitWrites(g, disk[g.start], group)))
  {
    if group.blocks == [] {
      EmptyHeaderRecovers(g, disk);
    } else {
      var half := CommitHalf(g, disk[g.start], group);
      CommitPoint(g, disk, group);
      InstallEnds(g, disk, group, Apply(disk, half));
      ApplyConcat(disk, half, InstallHalf(g, Encode(disk[g.start], group.blocks), group));
    }
  }

  /** Installation run to its end, with the header cleared after it. */
  lemma {:induction false} InstallEnds(g: Geometry, disk: Disk, group: Group, d: Disk)
    requires DiskOk(g, disk) && GroupOk(g, |disk|, group) && Installing(g, disk, group, d)
    ensures WritesFit(InstallHalf(g, d[g.start], group), |d|)
    ensures Installed(g, disk, group, Apply(d, InstallHalf(g, d[g.start], group)))
  {
    var e := LastInstall(g, disk, group, d);
    ClearAfterInstall(g, disk, group, e);
    ApplyConcat(d, InstallWrites(group.blocks, group.vals), [HeadWrite(g, d[g.start], [])]);
  }

  lemma {:induction false} LastInstall(g: Geometry, disk: Disk, group: Group, d: Disk) returns (e: Disk)
    requires DiskOk(g, disk) && GroupOk(g, |disk|, group) && Installing(g, disk, group, d)
    ensures WritesFit(InstallWrites(group.blocks, group.vals), |d|)
    ensures e == Apply(d, InstallWrites(group.blocks, group.vals))
    ensures Installing(g, disk, group, e) && e[g.start] == d[g.start] && SameHome(g, e, Update(disk, group))
  {
    var install := InstallWrites(group.blocks, group.vals);
    e := Apply(d, install);
    assert install[..|group.blocks|] == install;
    InstallKeepsInstalling(g, disk, group, d, |group.blocks|);
    ApplyOther(d, install, g.start);
    AllInstalled(g, disk, group, d);
  }

  /** Recovery is idempotent under crashes: a second recovery after any prefix of the first agrees with it. */
  lemma {:induction false} CrashInRecovery(g: Geometry, disk: Disk, k: nat)
    requires DiskOk(g, disk) && k <= |RecoverWrites(g, disk)|
    ensures WritesFit(RecoverWrites(g, disk)[..k], |disk|)
    ensures var d := Apply(disk, RecoverWrites(g, disk)[..k]);
            DiskOk(g, d) && SameHome(g, Recovered(g, d), Recovered(g, disk))
  {
    var blocks := Decode(disk[g.start]);
    var group := Group(blocks, Logged(g, disk, |blocks|));
    assert Installing(g, disk, group, disk);
    InstallingRecovers(g, disk, group, disk);
    CrashInInstall(g, disk, group, disk, k);
  }

  /** A recovery that runs to its end leaves an empty header, and recovering again changes nothing. */
  lemma {:induction false} RecoveryCompletes(g: Geometry, disk: Disk)
    requires DiskOk(g, disk)
    ensures Clean(g, Recovered(g, disk))
    ensures SameHome(g, Recovered(g, Recovered(g, disk)), Recovered(g, disk))
  {
    var blocks := Decode(disk[g.start]);
    var group := Group(blocks, Logged(g, disk, |blocks|));
    assert Installing(g, disk, group, disk);
    InstallEnds(g, disk, group, disk);
    EmptyHeaderRecovers(g, Recovered(g, disk));
  }

  // ----- whole runs -----------------------------------------------------------

  /** What can happen to a disk: a whole commit, a crash inside one, a whole recovery, a crash inside one. */
  datatype Event =
    | Commit(group: Group)
    | CommitCrash(group: Group, k: nat)
    | Recovery
    | RecoveryCrash(k: nat)

  datatype Machine = Machine(disk: Disk, up: bool)

  ghost predicate Enabled(g: Geometry, m: Machine, e: Event) {
    && DiskOk(g, m.disk)
    && match e
       case Commit(group) => m.up && GroupOk(g, |m.disk|, group)
       case CommitCrash(group, k) =>
         m.up && GroupOk(g, |m.disk|, group) && k <= |CommitWrites(g, m.disk[g.start], group)|
       case Recovery => !m.up
       case RecoveryCrash(k) => !m.up && k <= |RecoverWrites(g, m.disk)|
  }

  /** The writes an event gets to the disk. */
  ghost function EventWrites(g: Geometry, m: Machine, e: Event): (ws: seq<Write>)
    requires Enabled(g, m, e)
  {
    match e
    case Commit(group) => CommitWrites(g, m.disk[g.start], group)
    case CommitCrash(group, k) => CommitWrites(g, m.disk[g.start], group)[..k]
    case Recovery => RecoverWrites(g, m.disk)
    case RecoveryCrash(k) => RecoverWrites(g, m.disk)[..k]
  }

  ghost predicate Next(g: Geometry, m: Machine, e: Event, m': Machine) {
    && Enabled(g, m, e)
    && WritesFit(EventWrites(g, m, e), |m.disk|)
    && m' == Machine(Apply(m.disk, EventWrites(g, m, e)), e.Commit? || e.Recovery?)
  }

  ghost predicate Run(g: Geometry, ms: seq<Machine>, es: seq<Event>) {
    |ms| == |es| + 1 && forall i :: 0 <= i < |es| ==> Next(g, ms[i], es[i], ms[i + 1])
  }

  /** The groups whose commit header reached the disk, in order. */
  ghost function Survivors(es: seq<Event>): (gs: seq<Group>) {
    if es == [] then []
    else
      var e := es[|es| - 1];
      var init := Survivors(es[..|es| - 1]);
      match e
      case Commit(group) => init + [group]
      case CommitCrash(group, k) => if CommittedBy(group, k) then init + [group] else init
      case _ => init
  }

  ghost predicate GroupsFit(gs: seq<Group>, n: nat) {
    forall i :: 0 <= i < |gs| ==>
      && |gs[i].blocks| == |gs[i].vals| && Distinct(gs[i].blocks)
      && forall j :: 0 <= j < |gs[i].blocks| ==> gs[i].blocks[j] < n
  }

  ghost function UpdateAll(disk: Disk, gs: seq<Group>): (d: Disk)
    requires GroupsFit(gs, |disk|)
    ensures |d| == |disk|
  {
    if gs == [] then disk else Update(UpdateAll(disk, gs[..|gs| - 1]), gs[|gs| - 1])
  }

  lemma {:induction false} UpdateSameHome(g: Geometry, a: Disk, b: Disk, group: Group)
    requires SameHome(g, a, b) && GroupOk(g, |a|, group)
    ensures SameHome(g, Update(a, group), Update(b, group))
  {
    forall i | 0 <= i < |a| && !InLog(g, i) ensures Update(a, group)[i] == Update(b, group)[i] {
      UpdateAt(a, group, i);
      UpdateAt(b, group, i);
      if i in group.blocks {
        var j :| 0 <= j < |group.blocks| && group.blocks[j] == i;
      }
    }
  }

  ghost predicate Invariant(g: Geometry, m: Machine) {
    DiskOk(g, m.disk) && (m.up ==> Clean(g, m.disk))
  }

  /** What an event does to the state recovery would produce. */
  ghost predicate Effect(g: Geometry, e: Event, before: Disk, after: Disk) {
    match e
    case Commit(group) => GroupOk(g, |before|, group) && SameHome(g, after, Update(before, group))
    case CommitCrash(group, k) =>
      GroupOk(g, |before|, group) && SameHome(g, after, if CommittedBy(group, k) then Update(before, group) else before)
    case _ => SameHome(g, after, before)
  }

  /** One event keeps the invariant, and recovery's view moves by the group the event committed, if any. */
  lemma {:induction false} StepSound(g: Geometry, m: Machine, e: Event, m': Machine)
    requires Invariant(g, m) && Next(g, m, e, m')
    ensures Invariant(g, m')
    ensures Effect(g, e, Recovered(g, m.disk), Recovered(g, m'.disk))
  {
    match e
    case Commit(group) =>
      CommitEnds(g, m.disk, group);
      EmptyHeaderRecovers(g, m.disk);
      UpdateSameHome(g, m.disk, Recovered(g, m.disk), group);
    case CommitCrash(group, k) =>
      CrashInCommit(g, m.disk, group, k);
      EmptyHeaderRecovers(g, m.disk);
      UpdateSameHome(g, m.disk, Recovered(g, m.disk), group);
    case Recovery =>
      RecoveryCompletes(g, m.disk);
    case RecoveryCrash(k) =>
      CrashInRecovery(g, m.disk, k);
  }

  /**
   Crash atomicity over whole runs.  However commits, recoveries and crashes
   alternate, recovering from the disk gives the starting state with exactly
   the groups applied whose commit header was written, each whole and in order.
   */
  lemma {:induction false} RunsAreAtomic(g: Geometry, ms: seq<Machine>, es: seq<Event>)
    requires Run(g, ms, es) && Invariant(g, ms[0])
    ensures Invariant(g, ms[|es|]) && |ms[|es|].disk| == |ms[0].disk|
    ensures GroupsFit(Survivors(es), |ms[0].disk|)
    ensures SameHome(g, Recovered(g, ms[|es|].disk), UpdateAll(Recovered(g, ms[0].disk), Survivors(es)))
    decreases |es|
  {
    if es != [] {
      var k := |es| - 1;
      RunsAreAtomic(g, ms[..|es|], es[..k]);
      assert Next(g, ms[k], es[k], ms[k + 1]);
      StepSound(g, ms[k], es[k], ms[k + 1]);
      assert ms[..|es|][k] == ms[k];
      SurvivorStep(g, Recovered(g, ms[0].disk), Recovered(g, ms[k].disk), es, Recovered(g, ms[k + 1].disk));
    }
  }

  lemma {:induction false} SurvivorStep(g: Geometry, start: Disk, before: Disk, es: seq<Event>, after: Disk)
    requires es != [] && Effect(g, es[|es| - 1], before, after)
    requires GroupsFit(Survivors(es[..|es| - 1]), |start|)
    requires SameHome(g, before, UpdateAll(start, Survivors(es[..|es| - 1])))
    ensures GroupsFit(Survivors(es), |start|)
    ensures SameHome(g, after, UpdateAll(start, Survivors(es)))
  {
    var e := es[|es| - 1];
    var gs := Survivors(es[..|es| - 1]);
    if e.Commit? || (e.CommitCrash? && CommittedBy(e.group, e.k)) {
      assert (gs + [e.group])[..|gs|] == gs;
      UpdateSameHome(g, before, UpdateAll(start, gs), e.group);
    }
  }
}
