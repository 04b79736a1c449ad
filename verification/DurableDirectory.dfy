/**
 Directories on the log: rename (kernel/fs.c:701-744) as one operation.  Wherever the machine
 stops, recovery finds the directory as it was or with exactly one binding moved.
 */
module DurableDirectory {
  import B = Bio
  import Dr = Directory
  import opened DurableFiles
  import opened DiskImage
  import FS = FileSystem
  import opened FsContents
  import opened FsState
  import J = Journal
  import L = Log
  import Sequences

  /** An entry lies in one block, so a write of one logs at most four. */
  lemma {:induction false} EntryLogsFour(sb: Superblock, f: Fs, dp: nat, off: nat)
    requires AddrsOk(f) && dp < |f.inodes| && 0 < sb.size <= BPB && off % Dr.ENTRY == 0
    ensures |FS.LogBound(sb, f, dp, off, Dr.ENTRY)| <= 4
  {
    var lo, hi := off / BSIZE, (off + Dr.ENTRY + BSIZE - 1) / BSIZE;
    assert hi == lo + 1;
    FS.TouchedSize(f, dp, lo, hi);
    assert BBlock(sb, 0) == sb.bmapstart;
    assert FS.Bitmap(sb) == {sb.bmapstart};
    var three := {sb.bmapstart, FS.IBlock(sb, dp), Ref(f, dp, NDIRECT)};
    var touched := FS.Touched(f, dp, lo, hi);
    assert FS.LogBound(sb, f, dp, off, Dr.ENTRY) <= three + touched;
    Sequences.SubsetCount(FS.LogBound(sb, f, dp, off, Dr.ENTRY), three + touched);
  }

  /** What one write of an entry logs, in blocks of the disk. */
  lemma {:induction false} EntryHomes(sb: Superblock, g: J.Geometry, n: nat, f: Fs, l: set<nat>, f': Fs, l': set<nat>,
                                      owner: Owners, dp: nat) returns (more: set<nat>)
    requires Owned(sb, f', owner, {}, {}) && |f'.inodes| == n && Apart(sb, g, n) && sb.size <= BPB
    requires Dr.Recorded(sb, f, l, f', l', dp)
    ensures l <= l' <= l + more && |more| <= 4 && Homes(g, sb.size, more)
    ensures l' == l ==> f' == f || FS.IBlock(sb, dp) in l'
    ensures l' != l ==> FS.IBlock(sb, dp) in l'
  {
    hide Homes, Apart, FS.LogBound, Owned, Dr.OneEntry;
    OwnedShape(sb, f', owner);
    if f' == f && l' == l {
      more := {};
      HomesPart(g, sb.size, {}, {});
    } else {
      var off: nat :| Dr.OneEntry(sb, f', dp, l, l', off);
      more := OneMore(sb, f', dp, l, l', off);
      LoggedHomes(sb, g, f', owner, dp, off, Dr.ENTRY);
    }
  }

  lemma {:induction false} OneMore(sb: Superblock, f: Fs, dp: nat, l: set<nat>, l': set<nat>, off: nat)
    returns (more: set<nat>)
    requires AddrsOk(f) && dp < |f.inodes| && Dr.OneEntry(sb, f, dp, l, l', off) && 0 < sb.size <= BPB
    ensures more == FS.LogBound(sb, f, dp, off, Dr.ENTRY) && l' <= l + more && |more| <= 4
  {
    hide FS.LogBound;
    EntryLogsFour(sb, f, dp, off);
    more := FS.LogBound(sb, f, dp, off, Dr.ENTRY);
  }

  lemma {:induction false} OwnedShape(sb: Superblock, f: Fs, owner: Owners)
    requires Owned(sb, f, owner, {}, {})
    ensures AddrsOk(f) && LayoutOk(sb, f) && |f.store| == sb.size && 0 < sb.size
  {
    hide Marked, RefsOk;
  }

  lemma {:induction false} HomesBoth(g: J.Geometry, size: nat, a: set<nat>, b: set<nat>, c: set<nat>)
    requires Homes(g, size, a) && Homes(g, size, b) && c <= a + b
    ensures Homes(g, size, c)
  {
  }

  /** Two entries written in one operation. */
  lemma {:induction false} TwoEntries(sb: Superblock, g: J.Geometry, n: nat, f: Fs, mid: Fs, midOwner: Owners,
                                      l: set<nat>, f': Fs, owner: Owners, l': set<nat>, dp: nat)
    requires Owned(sb, mid, midOwner, {}, {}) && |mid.inodes| == n && Owned(sb, f', owner, {}, {}) && |f'.inodes| == n
    requires Apart(sb, g, n) && sb.size <= BPB
    requires Dr.Recorded(sb, f, {}, mid, l, dp) && Dr.Recorded(sb, mid, l, f', l', dp)
    ensures Changed(sb, f, f', l', dp) && |l'| <= 8 && Homes(g, |f'.store|, l')
  {
    hide Homes, Apart, Owned, FS.Traced, Dr.OneEntry, FS.IBlock;
    OwnedShape(sb, f', owner);
    var a := EntryHomes(sb, g, n, f, {}, mid, l, midOwner, dp);
    var b := EntryHomes(sb, g, n, mid, l, f', l', owner, dp);
    FS.TracedTwice(f, {}, mid, l, f', l', dp);
    HomesBoth(g, sb.size, a, b, l');
    Sequences.SubsetCount(l', a + b);
  }

  /** begin_op, the two writes of rename, end_op. */
  method Move(files: Files, dp: nat, from: seq<Byte>, to: seq<Byte>, me: nat) returns (r: int)
    requires files.Valid() && Dr.DirOk(files.fs, dp) && me != 0
    requires var d := Dr.DirOf(files.fs, dp); Dr.Key(from) in d ==> d[Dr.Key(from)] != dp
    modifies files`history, files`owners, files.fs
    modifies files.log`n, files.log`block, files.log`left, files.log`outstanding, files.log`committing, files.log`ends
    modifies files.log.bc`bufs, files.log.bc`users, files.log.bc`next, files.log.bc`prev, files.log.bc`ring
    modifies files.log.bc`pins, files.log.bc`disk, files.log.bc`writes
    ensures files.Valid() && Dr.DirOk(files.fs, dp) && old(files.log.bc.writes) <= files.log.bc.writes
    ensures files.history == old(files.history)
            || files.history == old(files.history) + [files.fs.Val()]
    ensures Moved(old(Dr.DirOf(files.fs, dp)), Dr.DirOf(files.fs, dp), Dr.Key(from), Dr.Key(to), r)
    ensures OthersKept(old(files.fs.Val()), files.fs.Val(), dp)
    ensures r == -1 && Dr.Key(from) in old(Dr.DirOf(files.fs, dp)) && Dr.Key(to) !in old(Dr.DirOf(files.fs, dp)) ==>
              NoRoom(files.fs.sb, files.fs.Val(), dp)
  {
    hide Owned, FilesOk, Contents, Ready, Holds, B.View, Apart, FS.Traced, FreeBlocks, Homes, Dr.Dir, Dr.NoDup,
      Dr.Whole, Dr.Recorded, Dr.Cut;
    ghost var f, ends := files.fs.Val(), files.log.ends;
    files.fs.logged := {};
    var stuck;
    ghost var mid, midLogged, midOwner;
    r, stuck, mid, midLogged, midOwner := Dr.Rename(files.fs, dp, from, to);
    SoundShape(files.fs.sb, files.n, files.fs.Val(), files.fs.owner);
    OwnedShape(files.fs.sb, files.fs.Val(), files.fs.owner);
    MidShape(files.fs.sb, f, mid, midLogged, dp);
    TwoEntries(files.fs.sb, files.log.g, files.n, f, mid, midOwner, midLogged, files.fs.Val(), files.fs.owner,
               files.fs.logged, dp);
    SameStore(f, files.fs.Val(), files.fs.logged, dp);
    Commit(files.log, files.fs.sb, f, Fs(files.fs.store, files.fs.inodes), files.fs.logged, dp, me);
    if files.fs.logged != {} {
      HistoryMore(files.fs.sb, files.log.g, files.n, files.history, files.owners, ends, files.fs.Val(), files.fs.owner,
                  files.log.ends);
      files.history, files.owners := files.history + [files.fs.Val()], files.owners + [files.fs.owner];
    }
  }

  lemma {:induction false} MidShape(sb: Superblock, f: Fs, mid: Fs, l: set<nat>, dp: nat)
    requires Dr.Recorded(sb, f, {}, mid, l, dp)
    ensures |mid.inodes| == |f.inodes|
  {
  }

  /** A directory with one binding moved, or, when r is -1, as it was. */
  ghost predicate Moved(d: map<seq<Byte>, nat>, d': map<seq<Byte>, nat>, from: seq<Byte>, to: seq<Byte>, r: int) {
    || (r == -1 && d' == d)
    || (r == 0 && from in d && to !in d && d' == (d - {from})[to := d[from]])
  }

  /** One more entry would make the directory too large, or there is no block for it. */
  ghost predicate NoRoom(sb: Superblock, f: Fs, dp: nat) {
    && LayoutOk(sb, f) && dp < |f.inodes|
    && (f.inodes[dp].size + Dr.ENTRY > MAXFILE * BSIZE || FreeBlocks(sb, f) == {})
  }

  ghost predicate OthersKept(f: Fs, f': Fs, dp: nat) {
    && |f'.inodes| == |f.inodes| && FilesOk(f) && FilesOk(f')
    && forall i :: 0 <= i < |f.inodes| ==>
         f'.inodes[i].typ == f.inodes[i].typ && (i != dp ==> Contents(f', i) == Contents(f, i))
  }

  /** If the machine stops after j writes, the directory that recovery finds stands for d. */
  ghost predicate FindsDir(files: Files, j: nat, dp: nat, d: map<seq<Byte>, nat>)
    reads files.log.bc`writes
  {
    var log, sb, n := files.log, files.fs.sb, files.n;
    && log.base <= j <= |log.bc.writes| && J.WritesFit(log.bc.writes[log.base..j], |log.boot|)
    && var disk := J.Apply(log.boot, log.bc.writes[log.base..j]);
       && J.DiskOk(log.g, disk) && IsDir(sb, n, J.Recovered(log.g, disk), dp, d)
  }

  ghost predicate IsDir(sb: Superblock, n: nat, disk: J.Disk, dp: nat, d: map<seq<Byte>, nat>) {
    && sb.inodestart + (n + IPB - 1) / IPB <= |disk| && dp < n
    && var m := Mount(sb, n, disk);
       && FilesOk(m) && m.inodes[dp].typ == Dr.T_DIR && Dr.Whole(Contents(m, dp)) && Dr.NoDup(Contents(m, dp))
       && Dr.Dir(Contents(m, dp)) == d
  }

  lemma {:induction false} StateIsDir(sb: Superblock, n: nat, disk: J.Disk, f: Fs, owner: Owners, dp: nat)
    requires Finds(sb, n, disk, f, owner) && dp < n && f.inodes[dp].typ == Dr.T_DIR
    requires Dr.Whole(Contents(f, dp)) && Dr.NoDup(Contents(f, dp))
    ensures IsDir(sb, n, disk, dp, Dr.Dir(Contents(f, dp)))
  {
    hide FilesOk, Owned, Contents, Dr.Dir, Dr.NoDup, Dr.Whole, Mount;
  }

  lemma {:induction false} RecoversDir(files: Files, j: nat, k: nat, dp: nat)
    requires files.Recovers(j, k) && dp < files.n && |files.history[k].inodes| == files.n && FilesOk(files.history[k])
    requires files.history[k].inodes[dp].typ == Dr.T_DIR
    requires Dr.Whole(Contents(files.history[k], dp)) && Dr.NoDup(Contents(files.history[k], dp))
    ensures FindsDir(files, j, dp, Dr.Dir(Contents(files.history[k], dp)))
  {
    hide FilesOk, Owned, Contents, Dr.Dir, Dr.NoDup, Dr.Whole, Finds, Holds, Sound, IsDir, J.Recovered, J.Apply,
      J.DiskOk;
    var log := files.log;
    var disk := J.Apply(log.boot, log.bc.writes[log.base..j]);
    StateIsDir(files.fs.sb, files.n, J.Recovered(log.g, disk), files.history[k], files.owners[k], dp);
  }

  /**
   rename within a directory is atomic: if the machine stops after any of its disk writes,
   recovery finds the old directory or the new one, and once it has returned, the new one.
   */
  method Rename(files: Files, dp: nat, from: seq<Byte>, to: seq<Byte>, me: nat) returns (r: int)
    requires files.Valid() && Dr.DirOk(files.fs, dp) && me != 0
    requires var d := Dr.DirOf(files.fs, dp); Dr.Key(from) in d ==> d[Dr.Key(from)] != dp
    modifies files`history, files`owners, files.fs
    modifies files.log`n, files.log`block, files.log`left, files.log`outstanding, files.log`committing, files.log`ends
    modifies files.log.bc`bufs, files.log.bc`users, files.log.bc`next, files.log.bc`prev, files.log.bc`ring
    modifies files.log.bc`pins, files.log.bc`disk, files.log.bc`writes
    ensures files.Valid() && Dr.DirOk(files.fs, dp) && old(files.log.bc.writes) <= files.log.bc.writes
    ensures Moved(old(Dr.DirOf(files.fs, dp)), Dr.DirOf(files.fs, dp), Dr.Key(from), Dr.Key(to), r)
    ensures OthersKept(old(files.fs.Val()), files.fs.Val(), dp)
    ensures r == -1 && Dr.Key(from) in old(Dr.DirOf(files.fs, dp)) && Dr.Key(to) !in old(Dr.DirOf(files.fs, dp)) ==>
              NoRoom(files.fs.sb, files.fs.Val(), dp)
    ensures forall j :: |old(files.log.bc.writes)| <= j <= |files.log.bc.writes| ==>
              || FindsDir(files, j, dp, old(Dr.DirOf(files.fs, dp)))
              || FindsDir(files, j, dp, Dr.DirOf(files.fs, dp))
    ensures FindsDir(files, |files.log.bc.writes|, dp, Dr.DirOf(files.fs, dp))
  {
    hide Owned, FilesOk, Contents, Holds, Apart, B.View, L.Busy, L.Log.ReservedOk, L.Log.HeaderOk, L.SafeSince,
      Files.Recovers, Moved, NoRoom, OthersKept, FindsDir, Dr.Dir, Dr.NoDup, Dr.Whole, Dr.Cut, Sound;
    ghost var w, ends, disk, h := files.log.bc.writes, files.log.ends, files.log.bc.disk, files.history;
    ghost var f, d := files.fs.Val(), Dr.DirOf(files.fs, dp);
    assert L.SafeSince(files.log.g, files.log.boot, files.log.base, w, ends, disk);
    r := Move(files, dp, from, to, me);
    ghost var d' := Dr.DirOf(files.fs, dp);
    forall j | |w| <= j <= |files.log.bc.writes|
      ensures FindsDir(files, j, dp, d) || FindsDir(files, j, dp, d')
    {
      files.CrashSince(w, ends, disk, j);
      ghost var k: nat :| |ends| - 1 <= k < |files.history| && files.Recovers(j, k);
      RecoversDir(files, j, k, dp);
    }
    files.Settled();
    RecoversDir(files, |files.log.bc.writes|, |files.history| - 1, dp);
  }
}
