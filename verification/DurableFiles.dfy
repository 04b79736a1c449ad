/**
 The file system on the log: filewrite (kernel/file.c:155-174) runs each chunk of a write as
 one operation of the log.  Whenever the machine stops, recovery gives a disk that mounts, with
 every block owned once, and with files as they were after a whole number of chunks.
 */
module DurableFiles {
  import B = Bio
  import opened DiskImage
  import D = Durability
  import FS = FileSystem
  import opened FsContents
  import opened FsState
  import J = Journal
  import L = Log
  import O = Operation
  import Reservation
  import opened Sequences

  const CHUNK: nat := (Reservation.MAXOPBLOCKS - 1 - 1 - 2) / 2 * BSIZE   // bytes that filewrite writes at a time

  /** A sound file system with n inodes. */
  ghost predicate Sound(sb: Superblock, n: nat, f: Fs, owner: Owners) {
    Owned(sb, f, owner, {}, {}) && FilesOk(f) && |f.inodes| == n
  }

  lemma {:induction false} SoundShape(sb: Superblock, n: nat, f: Fs, owner: Owners)
    requires Sound(sb, n, f, owner)
    ensures AddrsOk(f) && |f.store| == sb.size && |f.inodes| == n && 0 < sb.size
  {
    hide Marked, RefsOk;
  }

  /** Each state that a crash may recover is the image of a sound file system. */
  ghost predicate HistoryOk(sb: Superblock, g: J.Geometry, n: nat, history: seq<Fs>,
                            owners: seq<Owners>, ends: seq<J.Disk>) {
    && |history| == |owners| == |ends| > 0
    && forall k :: 0 <= k < |history| ==> Sound(sb, n, history[k], owners[k]) && Holds(sb, g, history[k], ends[k])
  }

  /** The home blocks of the disk are the image of f. */
  ghost predicate Holds(sb: Superblock, g: J.Geometry, f: Fs, disk: J.Disk) {
    AddrsOk(f) && J.SameHome(g, disk, Image(sb, f))
  }

  // ----- what a logged operation does to the image --------------------------------------------------

  /** The writes give each of their blocks its contents in f. */
  ghost predicate Writes(sb: Superblock, f: Fs, ws: seq<J.Write>) {
    AddrsOk(f) && forall i :: 0 <= i < |ws| ==>
      ws[i].blockno < |f.store| && ws[i].data == ImageAt(sb, f, ws[i].blockno)
  }

  lemma {:induction false} ApplyAt(sb: Superblock, f: Fs, disk: J.Disk, ws: seq<J.Write>, b: nat)
    requires Writes(sb, f, ws) && |disk| == |f.store| && b < |disk|
    ensures J.WritesFit(ws, |disk|)
    ensures J.Apply(disk, ws)[b] == if b in O.Targets(ws) then ImageAt(sb, f, b) else disk[b]
    decreases |ws|
  {
    hide ImageAt;
    if ws != [] {
      ApplyAt(sb, f, disk, ws[..|ws| - 1], b);
    }
  }

  /** Outside the logged blocks the image did not change. */
  lemma {:induction false} ImageKept(sb: Superblock, f: Fs, f': Fs, logged: set<nat>, ip: nat, b: nat)
    requires AddrsOk(f) && AddrsOk(f') && FS.Traced(f, {}, f', logged, ip) && FS.IBlock(sb, ip) in logged
    requires b < |f.store| && b !in logged
    ensures ImageAt(sb, f', b) == ImageAt(sb, f, b)
  {
    hide EncodeBlock;
    if InInodes(sb, |f.inodes|, b) {
      var k := b - sb.inodestart;
      forall i | 0 <= i < J.WORDS ensures EncodeInodes(f'.inodes, k)[i] == EncodeInodes(f.inodes, k)[i] {
        InodeAt(k, i / INODE_WORDS);
      }
    }
  }

  lemma {:induction false} ImageWritten(sb: Superblock, g: J.Geometry, f: Fs, f': Fs, logged: set<nat>, ip: nat,
                                        disk: J.Disk, ws: seq<J.Write>)
    requires Holds(sb, g, f, disk) && FS.Traced(f, {}, f', logged, ip) && FS.IBlock(sb, ip) in logged
    requires Writes(sb, f', ws) && O.Targets(ws) == logged
    ensures J.WritesFit(ws, |disk|) && Holds(sb, g, f', J.Apply(disk, ws))
  {
    hide ImageAt, O.Targets, FS.Traced, J.Apply;
    SameStore(f, f', logged, ip);
    forall b | 0 <= b < |disk|
      ensures J.WritesFit(ws, |disk|)
      ensures !J.InLog(g, b) ==> J.Apply(disk, ws)[b] == ImageAt(sb, f', b)
    {
      ApplyAt(sb, f', disk, ws, b);
      if b !in logged {
        ImageKept(sb, f, f', logged, ip, b);
      }
    }
  }

  lemma {:induction false} SameStore(f: Fs, f': Fs, logged: set<nat>, ip: nat)
    requires FS.Traced(f, {}, f', logged, ip)
    ensures |f'.store| == |f.store| && |f'.inodes| == |f.inodes|
    ensures ip < |f.inodes| ==> f'.inodes == f.inodes[ip := f'.inodes[ip]]
  {
  }

  lemma {:induction false} HoldsAlso(sb: Superblock, g: J.Geometry, f: Fs, disk: J.Disk, disk': J.Disk)
    requires Holds(sb, g, f, disk) && J.SameHome(g, disk', disk)
    ensures Holds(sb, g, f, disk')
  {
  }

  // ----- one logged operation --------------------------------------------------------------------

  /** No operation is running and the cache is not in use. */
  ghost predicate Ready(log: L.Log)
    reads log`n, log`block, log`left, log`outstanding, log`committing, log`ends, log.bc
  {
    && log.HeaderOk() && log.ReservedOk() && log.Durable() && L.Busy(log.bc, log.Members(), {}, {})
    && log.left == map[] && log.outstanding == 0 && !log.committing && J.LOGSIZE <= log.g.size
  }

  lemma {:induction false} ReadyRoom(log: L.Log, T: set<nat>)
    requires Ready(log)
    ensures log.Members() == {} && log.Elsewhere({}) && Reservation.HasRoom(log.n, log.outstanding)
    ensures O.Fresh(T, log.Members()) == |T| && |log.Members() + T| + |O.Used(log.bc.users)| == |T|
  {
    hide B.Bcache.Valid, L.Pinned;
    O.Outstanding(log);
    assert T - {} == T && {} + T == T;
    assert O.Used(log.bc.users) == {};
  }

  /** The contents in f of some blocks. */
  method Collect(sb: Superblock, f: Fs, logged: set<nat>) returns (ws: seq<J.Write>)
    requires AddrsOk(f) && forall b :: b in logged ==> b < |f.store|
    ensures Writes(sb, f, ws) && O.Targets(ws) == logged
  {
    hide ImageAt;
    ws := [];
    var rest := logged;
    while rest != {}
      invariant rest <= logged && Writes(sb, f, ws) && O.Targets(ws) == logged - rest
      decreases |rest|
    {
      var b :| b in rest;
      var w := J.Write(b, ImageAt(sb, f, b));
      assert (ws + [w])[..|ws|] == ws;
      ws := ws + [w];
      rest := rest - {b};
    }
  }

  /** Every logged block is a home block of the disk. */
  ghost predicate Homes(g: J.Geometry, size: nat, logged: set<nat>) {
    forall b :: b in logged ==> b < size && !J.InLog(g, b)
  }

  lemma {:induction false} WritesHome(sb: Superblock, g: J.Geometry, f: Fs, ws: seq<J.Write>, logged: set<nat>)
    requires Writes(sb, f, ws) && O.Targets(ws) == logged && Homes(g, |f.store|, logged)
    ensures O.Writable(g, |f.store|, {}, ws)
  {
    hide ImageAt;
    forall i | 0 <= i < |ws| ensures ws[i].blockno in logged {
      O.TargetsMore(ws, i);
    }
  }

  /** What a logged operation left of the file system, when it changed only what it logged. */
  ghost predicate Changed(sb: Superblock, f: Fs, f': Fs, logged: set<nat>, ip: nat) {
    && AddrsOk(f') && FS.Traced(f, {}, f', logged, ip)
    && (logged == {} ==> f' == f) && (logged != {} ==> FS.IBlock(sb, ip) in logged)
  }

  lemma {:induction false} NothingWritten(ws: seq<J.Write>, disk: J.Disk)
    requires O.Targets(ws) == {}
    ensures J.WritesFit(ws, |disk|) && J.Apply(disk, ws) == disk
  {
  }

  lemma {:induction false} ImageNow(sb: Superblock, g: J.Geometry, f: Fs, f': Fs, logged: set<nat>, ip: nat,
                                    disk: J.Disk, ws: seq<J.Write>)
    requires Holds(sb, g, f, disk) && Changed(sb, f, f', logged, ip) && Writes(sb, f', ws) && O.Targets(ws) == logged
    ensures J.WritesFit(ws, |disk|) && Holds(sb, g, f', J.Apply(disk, ws))
  {
    hide Holds, Writes, O.Targets, FS.Traced, J.Apply;
    if logged == {} {
      NothingWritten(ws, disk);
    } else {
      ImageWritten(sb, g, f, f', logged, ip, disk, ws);
    }
  }

  /** The blocks that an operation changed go through the log: the disk then holds what memory holds. */
  method Commit(log: L.Log, sb: Superblock, ghost f: Fs, f': Fs, logged: set<nat>, ip: nat, me: nat)
    requires Ready(log) && Holds(sb, log.g, f, B.View(log.bc.bufs, log.bc.disk)) && me != 0
    requires Changed(sb, f, f', logged, ip) && |logged| < Reservation.MAXOPBLOCKS
    requires |log.bc.disk| == |f'.store| && Homes(log.g, |f'.store|, logged)
    modifies log`n, log`block, log`left, log`outstanding, log`committing, log`ends
    modifies log.bc`bufs, log.bc`users, log.bc`next, log.bc`prev, log.bc`ring, log.bc`pins, log.bc`disk, log.bc`writes
    ensures Ready(log) && Holds(sb, log.g, f', B.View(log.bc.bufs, log.bc.disk)) && |log.bc.disk| == |f'.store|
    ensures old(log.bc.writes) <= log.bc.writes && (logged == {} ==> log.ends == old(log.ends))
    ensures logged != {} ==> |log.ends| == |old(log.ends)| + 1 && log.ends[..|old(log.ends)|] == old(log.ends)
    ensures logged != {} ==> Holds(sb, log.g, f', log.ends[|log.ends| - 1])
  {
    hide L.Busy, L.Log.ReservedOk, L.Log.Durable, L.Log.HeaderOk, O.Targets, O.Fresh, O.Used, O.Writable, J.Apply,
         B.View, Holds, Writes, FS.Traced, ImageAt, L.Log.Elsewhere;
    ghost var view := B.View(log.bc.bufs, log.bc.disk);
    var ws := Collect(sb, f', logged);
    WritesHome(sb, log.g, f', ws, logged);
    ReadyRoom(log, logged);
    ImageNow(sb, log.g, f, f', logged, ip, view, ws);
    var started := O.Perform(log, me, ws, 0, {});
    HoldsAlso(sb, log.g, f', J.Apply(view, ws), log.bc.disk);
  }

  // ----- the blocks that a chunk logs ------------------------------------------------------------

  /** Bitmap, inode, indirect and data blocks are home blocks. */
  lemma {:induction false} LoggedHomes(sb: Superblock, g: J.Geometry, f: Fs, owner: Owners, ip: nat, off: nat, n: nat)
    requires Owned(sb, f, owner, {}, {}) && ip < |f.inodes| && Apart(sb, g, |f.inodes|)
    ensures Homes(g, sb.size, FS.LogBound(sb, f, ip, off, n))
  {
    hide Marked, Ref;
    forall b | b in FS.LogBound(sb, f, ip, off, n) ensures b < sb.size && !J.InLog(g, b) {
      if b in FS.Bitmap(sb) {
        assert InBitmap(sb, b);
      } else if b == FS.IBlock(sb, ip) {
        assert InInodes(sb, |f.inodes|, b);
      } else if b == Ref(f, ip, NDIRECT) {
        DataBlock(sb, f, owner, ip, NDIRECT);
      } else {
        var bn :| 0 <= bn < MAXFILE && b == Ref(f, ip, Slot(bn));
        DataBlock(sb, f, owner, ip, Slot(bn));
      }
    }
  }

  lemma {:induction false} BitmapBound(sb: Superblock, f: Fs, ip: nat, logged: set<nat>)
    requires AddrsOk(f) && ip < |f.inodes| && logged <= {} + FS.Bitmap(sb) + {FS.IBlock(sb, ip)}
    ensures logged <= {} + FS.LogBound(sb, f, ip, 0, 0)
  {
    hide FS.Bitmap;
  }

  lemma {:induction false} HomesPart(g: J.Geometry, size: nat, a: set<nat>, b: set<nat>)
    requires Homes(g, size, b) && a <= b
    ensures Homes(g, size, a)
  {
  }

  lemma {:induction false} ChunkChanged(sb: Superblock, g: J.Geometry, n: nat, f: Fs, f': Fs, owner: Owners,
                                        logged: set<nat>, ip: nat, off: nat, m: nat, r: int)
    requires Sound(sb, n, f', owner) && Apart(sb, g, n) && sb.size <= BPB && ip < n && m <= CHUNK && AddrsOk(f')
    requires FS.Traced(f, {}, f', logged, ip)
    requires r == -1 ==> f' == f && logged == {}
    requires r != -1 ==> FS.IBlock(sb, ip) in logged && logged <= {} + FS.LogBound(sb, f', ip, off, m)
    ensures Changed(sb, f, f', logged, ip) && |logged| <= 7 && Homes(g, |f'.store|, logged)
  {
    SoundShape(sb, n, f', owner);
    hide Owned, FilesOk, FS.Traced, FS.LogBound, Homes, Apart;
    if r == -1 {
      HomesPart(g, |f'.store|, {}, {});
    } else {
      FS.LogsSeven(sb, f', owner, ip, off, m, logged);
      LoggedHomes(sb, g, f', owner, ip, off, m);
      HomesPart(g, |f'.store|, logged, FS.LogBound(sb, f', ip, off, m));
    }
  }

  lemma {:induction false} HistoryMore(sb: Superblock, g: J.Geometry, n: nat, history: seq<Fs>, owners: seq<Owners>,
                                       ends: seq<J.Disk>, f: Fs, owner: Owners, ends': seq<J.Disk>)
    requires HistoryOk(sb, g, n, history, owners, ends) && Sound(sb, n, f, owner)
    requires |ends'| == |ends| + 1 && ends'[..|ends|] == ends && Holds(sb, g, f, ends'[|ends|])
    ensures HistoryOk(sb, g, n, history + [f], owners + [owner], ends')
  {
    hide Sound, Holds;
    assert forall k :: 0 <= k < |ends| ==> ends'[k] == ends[k];
  }

  // ----- what a write does to the files ----------------------------------------------------------

  /** File ip had `data` written over it at off, and nothing else changed. */
  ghost predicate Spliced(f: Fs, f': Fs, ip: nat, off: nat, data: seq<Byte>) {
    && |f'.inodes| == |f.inodes| && ip < |f.inodes| && FilesOk(f) && FilesOk(f') && off <= f.inodes[ip].size
    && Contents(f', ip) == Splice(Contents(f, ip), off, data) && f'.inodes[ip].typ == f.inodes[ip].typ
    && forall i :: 0 <= i < |f.inodes| && i != ip ==> Contents(f', i) == Contents(f, i) && f'.inodes[i] == f.inodes[i]
  }

  /** File ip is empty, of the type it had, and nothing else changed. */
  ghost predicate Emptied(f: Fs, f': Fs, ip: nat) {
    && |f'.inodes| == |f.inodes| && ip < |f.inodes| && FilesOk(f) && FilesOk(f') && Contents(f', ip) == []
    && f'.inodes[ip].typ == f.inodes[ip].typ
    && forall i :: 0 <= i < |f.inodes| && i != ip ==> Contents(f', i) == Contents(f, i) && f'.inodes[i] == f.inodes[i]
  }

  lemma {:induction false} SplicedMore(f: Fs, f1: Fs, f2: Fs, ip: nat, off: nat, src: seq<Byte>, i: nat, m: nat, r: nat)
    requires i + m <= |src| && r <= m
    requires if i == 0 then f1 == f else Spliced(f, f1, ip, off, src[..i])
    requires Spliced(f1, f2, ip, off + i, src[i..i + m][..r])
    ensures Spliced(f, f2, ip, off, src[..i + r])
  {
    hide FilesOk, Contents, Splice;
    FS.ChunkSplices(Contents(f, ip), off, src, i, m, r);
    SpliceNothing(Contents(f, ip), off);
    assert i == 0 ==> src[..i] == [];
  }

  function Least(a: nat, b: nat): (m: nat) {
    if a < b then a else b
  }

  /** The states after each chunk of a write: whole chunks, except that the last may be cut short. */
  ghost predicate Stages(f: Fs, later: seq<Fs>, ip: nat, off: nat, src: seq<Byte>, total: nat) {
    total <= |src| && forall k :: 0 <= k < |later| ==>
      Spliced(f, later[k], ip, off, src[..Least(CHUNK * (k + 1), total)])
  }

  lemma {:induction false} NoStages(f: Fs, ip: nat, off: nat, src: seq<Byte>)
    ensures Stages(f, [], ip, off, src, 0)
  {
  }

  lemma {:induction false} StagesMore(f: Fs, later: seq<Fs>, f': Fs, ip: nat, off: nat, src: seq<Byte>, i: nat, r: nat)
    requires Stages(f, later, ip, off, src, i) && i == CHUNK * |later| && r <= CHUNK && i + r <= |src|
    requires Spliced(f, f', ip, off, src[..i + r])
    ensures Stages(f, later + [f'], ip, off, src, i + r)
  {
    hide Spliced;
    forall k | 0 <= k < |later| + 1
      ensures Spliced(f, (later + [f'])[k], ip, off, src[..Least(CHUNK * (k + 1), i + r)])
    {
      if k < |later| {
        assert Least(CHUNK * (k + 1), i) == Least(CHUNK * (k + 1), i + r);
      }
    }
  }

  // ----- crashes -----------------------------------------------------------------------------------

  /** Mounting a disk finds the files of f. */
  ghost predicate Finds(sb: Superblock, n: nat, disk: J.Disk, f: Fs, owner: Owners) {
    && sb.inodestart + (n + IPB - 1) / IPB <= |disk| && |f.inodes| == n && FilesOk(f)
    && var m := Mount(sb, n, disk);
       && Sound(sb, n, m, owner) && m.inodes == f.inodes
       && forall i :: 0 <= i < n ==> Contents(m, i) == Contents(f, i)
  }

  lemma {:induction false} MountFinds(sb: Superblock, g: J.Geometry, n: nat, f: Fs, owner: Owners, disk: J.Disk)
    requires Sound(sb, n, f, owner) && Apart(sb, g, n) && Holds(sb, g, f, disk)
    ensures Finds(sb, n, disk, f, owner)
  {
    SoundShape(sb, n, f, owner);
    hide Owned, FilesOk, Contents, Mount, Image, Apart;
    InodesFit(sb, g, n);
    MountImage(sb, g, f, disk);
    SameFilesOwned(sb, f, Mount(sb, n, disk), owner);
    SameFilesContents(sb, f, Mount(sb, n, disk), owner);
  }

  lemma {:induction false} MountHolds(sb: Superblock, g: J.Geometry, n: nat, f: Fs, owner: Owners, disk: J.Disk)
    requires Sound(sb, n, f, owner) && Apart(sb, g, n) && Holds(sb, g, f, disk)
    ensures sb.inodestart + (n + IPB - 1) / IPB <= |disk|
    ensures Holds(sb, g, Mount(sb, n, disk), disk) && |Mount(sb, n, disk).store| == |disk|
  {
    SoundShape(sb, n, f, owner);
    hide Owned, FilesOk, Contents, Apart, ImageAt;
    InodesFit(sb, g, n);
    MountImage(sb, g, f, disk);
  }

  lemma {:induction false} BootReady(log: L.Log)
    requires log.HeaderOk() && L.Quiet(log.bc, {}, {}) && log.ReservedOk() && log.Durable() && J.LOGSIZE <= log.g.size
    requires log.n == 0 && log.outstanding == 0 && !log.committing
    ensures Ready(log)
  {
    hide B.Bcache.Valid, L.Pinned, L.Log.Durable;
    assert log.Members() == {};
    assert log.left == map[];
  }

  lemma {:induction false} InodesFit(sb: Superblock, g: J.Geometry, n: nat)
    requires Apart(sb, g, n)
    ensures sb.inodestart + (n + IPB - 1) / IPB <= sb.size
  {
  }

  /** A stop after the writes w already made never recovers an older state than the last before them. */
  lemma {:induction false} NoOlder(g: J.Geometry, boot: J.Disk, base: nat, w: seq<J.Write>, ends: seq<J.Disk>,
                                   disk: J.Disk, w': seq<J.Write>, j: nat)
    requires L.SafeSince(g, boot, base, w, ends, disk) && w <= w' && |w| <= j <= |w'|
    ensures |ends| - 1 <= D.CommitCount(g, w'[base..j])
  {
    hide J.Apply, J.Recovered, J.DiskOk, D.CommitCount;
    D.CountGrows(g, w'[base..j], |w| - base, j - base);
    assert w'[base..j][..|w| - base] == w[base..];
    assert w'[base..j][..j - base] == w'[base..j];
  }

  /** The file system in memory and the log under it. */
  class Files {
    const fs: FS.FileSystem
    const log: L.Log
    const n: nat
    ghost var history: seq<Fs>       // the states that a crash may bring back, with ...
    ghost var owners: seq<Owners>    // ... the owners of their blocks

    ghost predicate Valid()
      reads this`history, this`owners, fs
      reads log`n, log`block, log`left, log`outstanding, log`committing, log`ends, log.bc
    {
      && fs.Valid() && fs.dinodes == fs.inodes && |fs.inodes| == n && Apart(fs.sb, log.g, n) && fs.sb.size <= BPB
      && Ready(log) && |log.bc.disk| == |fs.store| && Holds(fs.sb, log.g, fs.Val(), B.View(log.bc.bufs, log.bc.disk))
      && HistoryOk(fs.sb, log.g, n, history, owners, log.ends) && history[|history| - 1] == fs.Val()
    }

    /** Booting from a disk whose recovery holds sound files, however the machine stopped. */
    constructor (cache: B.Bcache, geometry: J.Geometry, superblock: Superblock, ninodes: nat, me: nat,
                 ghost f: Fs, ghost own: Owners)
      requires L.Quiet(cache, {}, {}) && J.DiskOk(geometry, cache.disk) && me != 0 && J.LOGSIZE <= geometry.size
      requires Sound(superblock, ninodes, f, own) && Apart(superblock, geometry, ninodes) && superblock.size <= BPB
      requires Holds(superblock, geometry, f, J.Recovered(geometry, cache.disk))
      modifies cache`bufs, cache`users, cache`next, cache`prev, cache`ring, cache`disk, cache`writes, cache`pins
      ensures Valid() && fresh(fs) && fresh(log) && log.bc == cache && history == [fs.Val()]
      ensures n == ninodes == |f.inodes| && FilesOk(f)
      ensures forall i :: 0 <= i < n ==> Contents(fs.Val(), i) == Contents(f, i)
    {
      hide Owned, FilesOk, Contents, Ready, Holds, Apart, Mount, L.Quiet, J.Recovered, J.DiskOk, B.View;
      log := new L.Log(cache, geometry, me);
      MountFinds(superblock, geometry, ninodes, f, own, cache.disk);
      MountHolds(superblock, geometry, ninodes, f, own, cache.disk);
      fs := new FS.FileSystem(superblock, Mount(superblock, ninodes, cache.disk), own);
      n := ninodes;
      history, owners := [Mount(superblock, ninodes, cache.disk)], [own];
      new;
      BootReady(log);
    }

    /**
     The disk that the machine finds if it stops after j writes recovers to the files of
     history[k]; with it the machine can boot again.
     */
    ghost predicate Recovers(j: nat, k: nat)
      reads this`history, this`owners, log.bc`writes
    {
      && log.base <= j <= |log.bc.writes| && k < |history| == |owners|
      && J.WritesFit(log.bc.writes[log.base..j], |log.boot|)
      && var disk := J.Apply(log.boot, log.bc.writes[log.base..j]);
         && J.DiskOk(log.g, disk) && Sound(fs.sb, n, history[k], owners[k])
         && Holds(fs.sb, log.g, history[k], J.Recovered(log.g, disk))
         && Finds(fs.sb, n, J.Recovered(log.g, disk), history[k], owners[k])
    }

    /** A crash after any write since boot leaves a disk with sound files, as some chunk left them. */
    lemma {:induction false} CrashRecoversFiles(j: nat)
      requires Valid() && log.base <= j <= |log.bc.writes|
      ensures Recovers(j, D.CommitCount(log.g, log.bc.writes[log.base..j]))
    {
      hide Ready, Sound, Holds, Finds, D.CommitCount, J.Apply, J.Recovered, J.DiskOk, Apart, J.SameHome, B.View,
           L.Log.Durable, FS.FileSystem.Valid;
      var k := D.CommitCount(log.g, log.bc.writes[log.base..j]);
      IsDurable();
      log.CrashAfter(j, j);
      var disk := J.Apply(log.boot, log.bc.writes[log.base..j]);
      HoldsAlso(fs.sb, log.g, history[k], log.ends[k], J.Recovered(log.g, disk));
      MountFinds(fs.sb, log.g, n, history[k], owners[k], J.Recovered(log.g, disk));
    }

    lemma {:induction false} IsDurable()
      requires Ready(log)
      ensures log.Durable()
    {
    }

    /** One turn of filewrite's loop, as one operation of the log. */
    method WriteChunk(ip: nat, off: nat, src: seq<Byte>, me: nat) returns (r: int)
      requires Valid() && ip < n && off < 0x1_0000_0000 && |src| <= CHUNK && me != 0
      modifies this`history, this`owners, fs`store, fs`inodes, fs`dinodes, fs`owner, fs`logged
      modifies log`n, log`block, log`left, log`outstanding, log`committing, log`ends
      modifies log.bc`bufs, log.bc`users, log.bc`next, log.bc`prev, log.bc`ring, log.bc`pins, log.bc`disk, log.bc`writes
      ensures Valid() && old(log.bc.writes) <= log.bc.writes
      ensures r == -1 <==> off > old(fs.inodes)[ip].size || off + |src| > MAXFILE * BSIZE
      ensures -1 <= r <= |src|
      ensures r == -1 ==> fs.Val() == old(fs.Val()) && history == old(history)
      ensures r >= 0 ==> Spliced(old(fs.Val()), fs.Val(), ip, off, src[..r]) && history == old(history) + [fs.Val()]
      ensures 0 <= r < |src| ==> FreeBlocks(fs.sb, fs.Val()) == {}
      ensures r >= 0 ==> fs.inodes[ip].size >= off + r
    {
      hide Owned, FilesOk, Contents, Ready, Holds, B.View, Apart, FS.Traced, FS.LogBound, FreeBlocks, Splice, Homes;
      ghost var f, ends := fs.Val(), log.ends;
      fs.logged := {};
      r := fs.Writei(ip, off, src);
      SoundShape(fs.sb, n, fs.Val(), fs.owner);
      SameStore(f, fs.Val(), fs.logged, ip);
      ChunkChanged(fs.sb, log.g, n, f, fs.Val(), fs.owner, fs.logged, ip, off, |src|, r);
      Commit(log, fs.sb, f, Fs(fs.store, fs.inodes), fs.logged, ip, me);
      if r >= 0 {
        HistoryMore(fs.sb, log.g, n, history, owners, ends, fs.Val(), fs.owner, log.ends);
        history, owners := history + [fs.Val()], owners + [fs.owner];
      }
    }

    /** A stop after j writes brings back the last of the first `many` states, or a later one. */
    ghost predicate RecoversSince(j: nat, many: nat)
      reads this`history, this`owners, log.bc`writes
    {
      exists k: nat :: many - 1 <= k < |history| && Recovers(j, k)
    }

    /** From a moment on, a crash brings back a state that was current then or later. */
    lemma {:induction false} CrashSince(w: seq<J.Write>, ends: seq<J.Disk>, disk: J.Disk, j: nat)
      requires Valid() && L.SafeSince(log.g, log.boot, log.base, w, ends, disk)
      requires w <= log.bc.writes && |w| <= j <= |log.bc.writes|
      ensures RecoversSince(j, |ends|)
    {
      hide Valid, Finds, Sound, Holds, J.Apply, J.Recovered, J.DiskOk, D.CrashSafe, J.Clean;
      NoOlder(log.g, log.boot, log.base, w, ends, disk, log.bc.writes, j);
      CrashRecoversFiles(j);
    }

    /** Once an operation has ended, a crash brings back what it left. */
    lemma {:induction false} Settled()
      requires Valid()
      ensures Recovers(|log.bc.writes|, |history| - 1)
    {
      hide Finds, Sound, Holds, J.Apply, J.Recovered, J.DiskOk, L.SafeSince, FS.FileSystem.Valid, B.View, L.Busy,
           L.Log.ReservedOk, Apart, Recovers;
      CrashSince(log.bc.writes, log.ends, log.bc.disk, |log.bc.writes|);
    }

    /** The loop of filewrite. */
    method Chunks(ip: nat, off: nat, src: seq<Byte>, me: nat) returns (ret: int, newoff: nat)
      requires Valid() && ip < n && off < 0x1_0000_0000 && |src| < 0x8000_0000 && me != 0
      modifies this`history, this`owners, fs`store, fs`inodes, fs`dinodes, fs`owner, fs`logged
      modifies log`n, log`block, log`left, log`outstanding, log`committing, log`ends
      modifies log.bc`bufs, log.bc`users, log.bc`next, log.bc`prev, log.bc`ring, log.bc`pins, log.bc`disk, log.bc`writes
      ensures Valid() && old(log.bc.writes) <= log.bc.writes && old(history) <= history
      ensures (ret == |src| && newoff == off + |src|) || (ret == -1 && off <= newoff < off + |src|)
      ensures history == old(history) ==> fs.Val() == old(fs.Val()) && newoff == off
      ensures history != old(history) ==> Spliced(old(fs.Val()), fs.Val(), ip, off, src[..newoff - off])
      ensures Stages(old(fs.Val()), history[|old(history)|..], ip, off, src, newoff - off)
      ensures off > old(fs.inodes)[ip].size && src != [] ==> ret == -1 && history == old(history)
      ensures off + |src| > MAXFILE * BSIZE && src != [] ==> ret == -1
      ensures ret == -1 ==>
                off > old(fs.inodes)[ip].size || off + |src| > MAXFILE * BSIZE || FreeBlocks(fs.sb, fs.Val()) == {}
    {
      hide Ready, Holds, HistoryOk, FS.FileSystem.Valid, Apart, Spliced, Stages, FreeBlocks, B.View, FilesOk, Contents;
      ghost var f, h := fs.Val(), history;
      NoStages(f, ip, off, src);
      assert history[|h|..] == [];
      var i := 0;
      newoff := off;
      while i < |src|
        invariant i <= |src| && newoff == off + i < 0x1_0000_0000
        invariant Valid() && old(log.bc.writes) <= log.bc.writes && h <= history
        invariant Stages(f, history[|h|..], ip, off, src, i)
        invariant (i < |src| ==> i == CHUNK * (|history| - |h|)) && (i > 0 ==> off <= f.inodes[ip].size)
        invariant i > 0 ==> newoff <= fs.inodes[ip].size && newoff <= MAXFILE * BSIZE
        invariant i == 0 ==> history == h && fs.Val() == f
        invariant i > 0 ==> history != h && Spliced(f, fs.Val(), ip, off, src[..i])
      {
        var n1 := if |src| - i > CHUNK then CHUNK else |src| - i;
        ghost var g, h1 := fs.Val(), history;
        var r := WriteChunk(ip, newoff, src[i..i + n1], me);
        if r >= 0 {
          SplicedMore(f, g, fs.Val(), ip, off, src, i, n1, r);
          StagesMore(f, h1[|h|..], fs.Val(), ip, off, src, i, r);
          assert history[|h|..] == h1[|h|..] + [fs.Val()];
        }
        if r > 0 {
          newoff := newoff + r;
        }
        if r != n1 {
          return -1, newoff;
        }
        i := i + r;
      }
      ret := |src|;
    }

    /**
     filewrite on an inode.  If the machine stops after any of the disk writes that it makes,
     recovery finds the files as they were, or with a number of whole chunks written, or with
     all that was written; once it has returned, recovery finds all that was written.
     */
    method Filewrite(ip: nat, off: nat, src: seq<Byte>, me: nat) returns (ret: int, newoff: nat)
      requires Valid() && ip < n && off < 0x1_0000_0000 && |src| < 0x8000_0000 && me != 0
      modifies this`history, this`owners, fs`store, fs`inodes, fs`dinodes, fs`owner, fs`logged
      modifies log`n, log`block, log`left, log`outstanding, log`committing, log`ends
      modifies log.bc`bufs, log.bc`users, log.bc`next, log.bc`prev, log.bc`ring, log.bc`pins, log.bc`disk, log.bc`writes
      ensures Valid() && old(log.bc.writes) <= log.bc.writes && old(history) <= history
      ensures (ret == |src| && newoff == off + |src|) || (ret == -1 && off <= newoff < off + |src|)
      ensures history == old(history) ==> fs.Val() == old(fs.Val()) && newoff == off
      ensures history != old(history) ==> Spliced(old(fs.Val()), fs.Val(), ip, off, src[..newoff - off])
      ensures history[|old(history)| - 1] == old(fs.Val())
      ensures Stages(old(fs.Val()), history[|old(history)|..], ip, off, src, newoff - off)
      ensures off > old(fs.inodes)[ip].size && src != [] ==> ret == -1 && history == old(history)
      ensures off + |src| > MAXFILE * BSIZE && src != [] ==> ret == -1
      ensures ret == -1 ==>
                off > old(fs.inodes)[ip].size || off + |src| > MAXFILE * BSIZE || FreeBlocks(fs.sb, fs.Val()) == {}
      ensures forall j :: |old(log.bc.writes)| <= j <= |log.bc.writes| ==> RecoversSince(j, |old(history)|)
      ensures Recovers(|log.bc.writes|, |history| - 1)
    {
      hide Holds, FS.FileSystem.Valid, Apart, Spliced, Stages, B.View, L.Busy, L.Log.ReservedOk, L.Log.HeaderOk,
           L.SafeSince, Recovers, RecoversSince;
      ghost var w, ends, disk := log.bc.writes, log.ends, log.bc.disk;
      assert L.SafeSince(log.g, log.boot, log.base, w, ends, disk);
      ret, newoff := Chunks(ip, off, src, me);
      forall j | |w| <= j <= |log.bc.writes| ensures RecoversSince(j, |ends|) {
        CrashSince(w, ends, disk, j);
      }
      Settled();
    }

    /**
     itrunc as an operation, as open does it with O_TRUNC: if the machine stops after any of the
     disk writes, recovery finds the file whole or empty, and empty once it has returned.
     */
    method Truncate(ip: nat, me: nat)
      requires Valid() && ip < n && me != 0
      modifies this`history, this`owners, fs`store, fs`inodes, fs`dinodes, fs`owner, fs`logged
      modifies log`n, log`block, log`left, log`outstanding, log`committing, log`ends
      modifies log.bc`bufs, log.bc`users, log.bc`next, log.bc`prev, log.bc`ring, log.bc`pins, log.bc`disk, log.bc`writes
      ensures Valid() && old(log.bc.writes) <= log.bc.writes && history == old(history) + [fs.Val()]
      ensures Emptied(old(fs.Val()), fs.Val(), ip) && history[|old(history)| - 1] == old(fs.Val())
      ensures forall j :: |old(log.bc.writes)| <= j <= |log.bc.writes| ==> RecoversSince(j, |old(history)|)
      ensures Recovers(|log.bc.writes|, |history| - 1)
    {
      hide Holds, FS.FileSystem.Valid, Apart, B.View, L.Busy, L.Log.ReservedOk, L.Log.HeaderOk, L.SafeSince, Recovers,
           RecoversSince, Emptied;
      ghost var w, ends, disk := log.bc.writes, log.ends, log.bc.disk;
      assert L.SafeSince(log.g, log.boot, log.base, w, ends, disk);
      Clear(ip, me);
      forall j | |w| <= j <= |log.bc.writes| ensures RecoversSince(j, |ends|) {
        CrashSince(w, ends, disk, j);
      }
      Settled();
    }

    /** begin_op, itrunc, end_op. */
    method Clear(ip: nat, me: nat)
      requires Valid() && ip < n && me != 0
      modifies this`history, this`owners, fs`store, fs`inodes, fs`dinodes, fs`owner, fs`logged
      modifies log`n, log`block, log`left, log`outstanding, log`committing, log`ends
      modifies log.bc`bufs, log.bc`users, log.bc`next, log.bc`prev, log.bc`ring, log.bc`pins, log.bc`disk, log.bc`writes
      ensures Valid() && old(log.bc.writes) <= log.bc.writes && history == old(history) + [fs.Val()]
      ensures Emptied(old(fs.Val()), fs.Val(), ip)
    {
      hide Owned, FilesOk, Contents, Ready, Holds, B.View, Apart, FS.Traced, FS.LogBound, FreeBlocks, Homes, FS.Bitmap;
      ghost var f, ends := fs.Val(), log.ends;
      fs.logged := {};
      fs.Itrunc(ip);
      SoundShape(fs.sb, n, fs.Val(), fs.owner);
      SameStore(f, fs.Val(), fs.logged, ip);
      BitmapBound(fs.sb, fs.Val(), ip, fs.logged);
      ChunkChanged(fs.sb, log.g, n, f, fs.Val(), fs.owner, fs.logged, ip, 0, 0, 0);
      Commit(log, fs.sb, f, Fs(fs.store, fs.inodes), fs.logged, ip, me);
      HistoryMore(fs.sb, log.g, n, history, owners, ends, fs.Val(), fs.owner, log.ends);
      history, owners := history + [fs.Val()], owners + [fs.owner];
    }
  }
}
