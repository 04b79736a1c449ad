/**
 Directories of kernel/fs.c: a directory is a file of 16-byte entries, an inode
 number (0: unused) and a name of up to DIRSIZ bytes.  `Dir` is the finite map
 it stands for.
 */
module Directory {
  import opened FsState
  import opened FsContents
  import FS = FileSystem

  const DIRSIZ: nat := 14
  const ENTRY: nat := 16
  const T_DIR: nat := 1

  // ----- names ----------------------------------------------------------------------

  function At(s: seq<Byte>, i: nat): (x: Byte) {
    if i < |s| then s[i] else 0
  }

  /** The C string at the start of s, read up to n bytes. */
  function Cut(s: seq<Byte>, n: nat): (r: seq<Byte>)
    decreases n
  {
    if n == 0 || s == [] || s[0] == 0 then [] else [s[0]] + Cut(s[1..], n - 1)
  }

  /** The key under which a name is stored. */
  function Key(name: seq<Byte>): (k: seq<Byte>) {
    Cut(name, DIRSIZ)
  }

  /** strncmp(p, q, n) == 0: its loop, which stops at a difference, a NUL or n bytes. */
  method SameName(p: seq<Byte>, q: seq<Byte>, n: nat) returns (same: bool)
    ensures same == (Cut(p, n) == Cut(q, n))
  {
    var i := 0;
    while i < n && At(p, i) != 0 && At(p, i) == At(q, i)
      invariant i <= n && i <= |p| && i <= |q|
      invariant (Cut(p, n) == Cut(q, n)) == (Cut(p[i..], n - i) == Cut(q[i..], n - i))
    {
      assert p[i..][1..] == p[i + 1..] && q[i..][1..] == q[i + 1..];
      SameHead(p[i..], q[i..], n - i);
      i := i + 1;
    }
    if i == n {
      return true;
    }
    CutHead(p[i..], n - i);
    CutHead(q[i..], n - i);
    same := At(p, i) == At(q, i);
  }

  lemma {:induction false} CutHead(s: seq<Byte>, n: nat)
    requires 0 < n
    ensures if At(s, 0) == 0 then Cut(s, n) == [] else Cut(s, n) != [] && Cut(s, n)[0] == s[0]
  {
  }

  lemma {:induction false} SameHead(p: seq<Byte>, q: seq<Byte>, n: nat)
    requires 0 < n && p != [] && q != [] && p[0] == q[0] && p[0] != 0
    ensures Cut(p, n) == Cut(q, n) <==> Cut(p[1..], n - 1) == Cut(q[1..], n - 1)
  {
    assert Cut(p, n)[1..] == Cut(p[1..], n - 1) && Cut(q, n)[1..] == Cut(q[1..], n - 1);
  }

  /** strncpy(de.name, name, DIRSIZ): the name, cut or padded with NULs to DIRSIZ bytes. */
  method PadName(name: seq<Byte>) returns (padded: seq<Byte>)
    ensures |padded| == DIRSIZ && Key(padded) == Key(name)
  {
    padded := [];
    while |padded| < DIRSIZ && At(name, |padded|) != 0
      invariant |padded| <= DIRSIZ && |padded| <= |name| && padded == name[..|padded|]
      invariant 0 !in padded
      decreases DIRSIZ - |padded|
    {
      padded := padded + [name[|padded|]];
    }
    ghost var k := |padded|;
    CutPrefix(name, k, DIRSIZ);
    while |padded| < DIRSIZ
      invariant k <= |padded| <= DIRSIZ && padded[..k] == name[..k]
      invariant forall i :: k <= i < |padded| ==> padded[i] == 0
    {
      padded := padded + [0];
    }
    assert forall i :: 0 <= i < k ==> padded[i] == padded[..k][i];
    CutPrefix(padded, k, DIRSIZ);
  }

  /** A string whose first NUL, or end, is at k <= n is its first k bytes. */
  lemma {:induction false} CutPrefix(s: seq<Byte>, k: nat, n: nat)
    requires k <= |s| && k <= n && (forall i :: 0 <= i < k ==> s[i] != 0)
    requires k == n || At(s, k) == 0
    ensures Cut(s, n) == s[..k]
    decreases k
  {
    if k > 0 {
      CutPrefix(s[1..], k - 1, n - 1);
      assert s[..k] == [s[0]] + s[1..][..k - 1];
    }
  }

  // ----- entries --------------------------------------------------------------------

  ghost predicate Whole(c: seq<Byte>) {
    |c| % ENTRY == 0
  }

  ghost function Entry(c: seq<Byte>, k: nat): (e: seq<Byte>)
    requires ENTRY * k + ENTRY <= |c|
    ensures |e| == ENTRY
  {
    c[ENTRY * k..ENTRY * k + ENTRY]
  }

  function Inum(e: seq<Byte>): (n: nat)
    requires |e| == ENTRY
  {
    Num(e[0]) + 0x100 * Num(e[1])
  }

  function Name(e: seq<Byte>): (k: seq<Byte>)
    requires |e| == ENTRY
  {
    Key(e[2..])
  }

  ghost predicate Live(c: seq<Byte>, k: nat) {
    ENTRY * k + ENTRY <= |c| && Inum(Entry(c, k)) != 0
  }

  /** No two live entries have the same name. */
  ghost predicate NoDup(c: seq<Byte>) {
    forall j, k :: Live(c, j) && Live(c, k) && Name(Entry(c, j)) == Name(Entry(c, k)) ==> j == k
  }

  ghost function Names(c: seq<Byte>): (s: set<seq<Byte>>) {
    set k: nat | k < |c| && Live(c, k) :: Name(Entry(c, k))
  }

  ghost function Find(c: seq<Byte>, name: seq<Byte>): (k: nat)
    requires name in Names(c)
    ensures Live(c, k) && Name(Entry(c, k)) == name
  {
    var k: nat :| k < |c| && Live(c, k) && Name(Entry(c, k)) == name;
    k
  }

  /** The map a directory's contents stand for. */
  ghost function Dir(c: seq<Byte>): (m: map<seq<Byte>, nat>) {
    map name | name in Names(c) :: Inum(Entry(c, Find(c, name)))
  }

  lemma {:induction false} LiveBound(c: seq<Byte>, k: nat)
    requires NoDup(c) && Live(c, k)
    ensures Name(Entry(c, k)) in Dir(c) && Dir(c)[Name(Entry(c, k))] == Inum(Entry(c, k))
  {
    assert k < |c|;
    assert Name(Entry(c, k)) in Names(c);
  }

  lemma {:induction false} NotBound(c: seq<Byte>, name: seq<Byte>)
    requires forall k :: Live(c, k) ==> Name(Entry(c, k)) != name
    ensures name !in Dir(c)
  {
  }

  // ----- changing one entry ---------------------------------------------------------

  lemma {:induction false} SpliceEntry(c: seq<Byte>, k: nat, e: seq<Byte>, j: nat)
    requires Whole(c) && ENTRY * k <= |c| && |e| == ENTRY
    ensures Whole(Splice(c, ENTRY * k, e))
    ensures Live(Splice(c, ENTRY * k, e), j) <==> if j == k then Inum(e) != 0 else Live(c, j)
    ensures Live(Splice(c, ENTRY * k, e), j) ==>
              Entry(Splice(c, ENTRY * k, e), j) == if j == k then e else Entry(c, j)
  {
    var d := Splice(c, ENTRY * k, e);
    if ENTRY * j + ENTRY <= |d| && j != k {
      assert ENTRY * j + ENTRY <= |c|;
      assert Entry(d, j) == Entry(c, j);
    } else if j == k {
      assert Entry(d, k) == e;
    }
  }

  /** Entry k is filled with e and every other entry is as before. */
  ghost predicate Filled(c: seq<Byte>, k: nat, e: seq<Byte>, d: seq<Byte>) {
    && (forall j :: Live(d, j) <==> j == k || Live(c, j))
    && (forall j :: Live(d, j) ==> Entry(d, j) == if j == k then e else Entry(c, j))
  }

  lemma {:induction false} InsertFills(c: seq<Byte>, k: nat, e: seq<Byte>)
    requires Whole(c) && ENTRY * k <= |c| && |e| == ENTRY && Inum(e) != 0
    ensures Whole(Splice(c, ENTRY * k, e)) && Filled(c, k, e, Splice(c, ENTRY * k, e))
  {
    hide Splice, Entry, Inum, Name;
    var d := Splice(c, ENTRY * k, e);
    SpliceEntry(c, k, e, k);
    forall j ensures Live(d, j) <==> j == k || Live(c, j) { SpliceEntry(c, k, e, j); }
    forall j | Live(d, j) ensures Entry(d, j) == if j == k then e else Entry(c, j) { SpliceEntry(c, k, e, j); }
  }

  lemma {:induction false} InsertBinds(c: seq<Byte>, k: nat, e: seq<Byte>, d: seq<Byte>, x: seq<Byte>)
    requires NoDup(c) && NoDup(d) && !Live(c, k) && Filled(c, k, e, d) && Name(e) !in Dir(c)
    ensures x in Dir(d) <==> x in Dir(c) || x == Name(e)
    ensures x in Dir(d) ==> Dir(d)[x] == Dir(c)[Name(e) := Inum(e)][x]
  {
    hide Entry, Inum, Name, Names;
    if x in Dir(d) {
      var j := Find(d, x);
      LiveBound(d, j);
      if j != k { LiveBound(c, j); }
    }
    if x in Dir(c) || x == Name(e) {
      LiveBound(d, if x == Name(e) then k else Find(c, x));
    }
  }

  /** Filling an unused entry, or a new one at the end, with a new name inserts a binding. */
  lemma {:induction false} Insert(c: seq<Byte>, k: nat, e: seq<Byte>)
    requires Whole(c) && NoDup(c) && ENTRY * k <= |c| && |e| == ENTRY && !Live(c, k)
    requires Inum(e) != 0 && Name(e) !in Dir(c)
    ensures var d := Splice(c, ENTRY * k, e);
            Whole(d) && NoDup(d) && Dir(d) == Dir(c)[Name(e) := Inum(e)]
  {
    hide Splice, Entry, Inum, Name, Names, Dir;
    var d := Splice(c, ENTRY * k, e);
    InsertFills(c, k, e);
    forall j | Live(c, j) ensures Name(Entry(c, j)) != Name(e) { LiveBound(c, j); }
    assert NoDup(d);
    forall x: seq<Byte>
      ensures x in Dir(d) <==> x in Dir(c) || x == Name(e)
      ensures x in Dir(d) ==> Dir(d)[x] == Dir(c)[Name(e) := Inum(e)][x]
    {
      InsertBinds(c, k, e, d, x);
    }
  }

  /** Clearing the inode number of a live entry removes its binding. */
  lemma {:induction false} Remove(c: seq<Byte>, k: nat, e: seq<Byte>)
    requires Whole(c) && NoDup(c) && Live(c, k) && |e| == ENTRY && Inum(e) == 0
    ensures var d := Splice(c, ENTRY * k, e);
            Whole(d) && NoDup(d) && Dir(d) == Dir(c) - {Name(Entry(c, k))}
  {
    hide Splice, Entry, Inum, Name, Names;
    var d := Splice(c, ENTRY * k, e);
    forall j ensures Live(d, j) <==> (j != k && Live(c, j)) { SpliceEntry(c, k, e, j); }
    forall j | Live(d, j) ensures Entry(d, j) == Entry(c, j) { SpliceEntry(c, k, e, j); }
    SpliceEntry(c, k, e, k);
    var name := Name(Entry(c, k));
    forall x | x in Dir(d) ensures x in Dir(c) && x != name && Dir(d)[x] == Dir(c)[x] {
      var j := Find(d, x);
      LiveBound(d, j);
      LiveBound(c, j);
    }
    forall x | x in Dir(c) && x != name ensures x in Dir(d) {
      LiveBound(d, Find(c, x));
    }
  }

  // ----- operations -----------------------------------------------------------------

  ghost predicate DirOk(fs: FS.FileSystem, dp: nat)
    reads fs
  {
    && fs.Valid() && dp < |fs.inodes| && fs.inodes[dp].typ == T_DIR
    && Whole(Contents(fs.Val(), dp)) && NoDup(Contents(fs.Val(), dp))
  }

  ghost function DirOf(fs: FS.FileSystem, dp: nat): (m: map<seq<Byte>, nat>)
    reads fs
    requires DirOk(fs, dp)
  {
    Dir(Contents(fs.Val(), dp))
  }

  lemma {:induction false} SizeBound(f: Fs, i: nat)
    requires FilesOk(f) && i < |f.inodes|
    ensures f.inodes[i].size <= MAXFILE * BSIZE < 0x1_0000_0000
  {
    assert Present(f, i, f.inodes[i].size);
  }

  /** Read the entry at offset off; a whole entry is always there, so no read panic is reachable. */
  method ReadEntry(fs: FS.FileSystem, dp: nat, off: nat) returns (de: seq<Byte>)
    requires fs.Valid() && dp < |fs.inodes| && off % ENTRY == 0 && off + ENTRY <= fs.inodes[dp].size
    modifies fs
    ensures fs.Valid() && fs.Val() == old(fs.Val()) && fs.owner == old(fs.owner)
    ensures fs.logged == old(fs.logged) && fs.dinodes == old(fs.dinodes)
    ensures |de| == ENTRY && de == Entry(Contents(fs.Val(), dp), off / ENTRY)
  {
    hide Owned, FilesOk, Contents, Inum, Name;
    SizeBound(fs.Val(), dp);
    de := fs.Readi(dp, off, ENTRY);
  }

  /** What dirlookup's scan has excluded so far. */
  ghost predicate Passed(c: seq<Byte>, off: nat, key: seq<Byte>) {
    forall k :: ENTRY * k + ENTRY <= off && Live(c, k) ==> Name(Entry(c, k)) != key
  }

  lemma {:induction false} PassOne(c: seq<Byte>, off: nat, key: seq<Byte>)
    requires Passed(c, off, key) && off % ENTRY == 0 && off + ENTRY <= |c|
    requires Inum(Entry(c, off / ENTRY)) == 0 || Name(Entry(c, off / ENTRY)) != key
    ensures Passed(c, off + ENTRY, key)
  {
    hide Entry, Inum, Name;
    forall k | ENTRY * k + ENTRY <= off + ENTRY && Live(c, k) ensures Name(Entry(c, k)) != key {
      if ENTRY * k + ENTRY > off { assert k == off / ENTRY; }
    }
  }

  lemma {:induction false} PassAll(c: seq<Byte>, key: seq<Byte>)
    requires Passed(c, |c|, key)
    ensures key !in Dir(c)
  {
    hide Entry, Inum, Name;
    NotBound(c, key);
  }

  /** dirlookup: the inode number bound to the name and the entry's offset, or 0. */
  method Dirlookup(fs: FS.FileSystem, dp: nat, name: seq<Byte>) returns (inum: nat, poff: nat)
    requires DirOk(fs, dp)
    modifies fs
    ensures DirOk(fs, dp) && fs.Val() == old(fs.Val()) && fs.owner == old(fs.owner)
    ensures fs.logged == old(fs.logged) && fs.dinodes == old(fs.dinodes)
    ensures inum == if Key(name) in DirOf(fs, dp) then DirOf(fs, dp)[Key(name)] else 0
    ensures inum == 0 ==> Key(name) !in DirOf(fs, dp)
    ensures inum != 0 ==> poff % ENTRY == 0 && Live(Contents(fs.Val(), dp), poff / ENTRY) &&
                          Name(Entry(Contents(fs.Val(), dp), poff / ENTRY)) == Key(name)
  {
    hide Owned, FilesOk, Contents, Dir, NoDup, Entry, Passed, Cut;
    ghost var c := Contents(fs.Val(), dp);
    var off := 0;
    NothingPassed(c, Key(name));
    while off < fs.inodes[dp].size
      invariant DirOk(fs, dp) && fs.Val() == old(fs.Val()) && fs.owner == old(fs.owner)
      invariant fs.logged == old(fs.logged) && fs.dinodes == old(fs.dinodes)
      invariant off % ENTRY == 0 && off <= |c| && Passed(c, off, Key(name))
    {
      var de := ReadEntry(fs, dp, off);
      if Num(de[0]) + 0x100 * Num(de[1]) != 0 {
        var same := SameName(name, de[2..], DIRSIZ);
        if same {
          LiveBound(c, off / ENTRY);
          return Num(de[0]) + 0x100 * Num(de[1]), off;
        }
      }
      PassOne(c, off, Key(name));
      off := off + ENTRY;
    }
    PassAll(c, Key(name));
    return 0, 0;
  }

  lemma {:induction false} NothingPassed(c: seq<Byte>, key: seq<Byte>)
    ensures Passed(c, 0, key)
  {
  }

  /** Entries never straddle a block. */
  lemma {:induction false} InOneBlock(off: nat)
    requires off % ENTRY == 0
    ensures off % BSIZE + ENTRY <= BSIZE
  {
  }

  /** A write of one entry: what changed was logged, the inode with it, or nothing happened. */
  ghost predicate Recorded(sb: Superblock, f: Fs, l: set<nat>, f': Fs, l': set<nat>, dp: nat) {
    && AddrsOk(f') && dp < |f'.inodes| && FS.Traced(f, l, f', l', dp)
    && ((f' == f && l' == l) || (FS.IBlock(sb, dp) in l' && exists off: nat :: OneEntry(sb, f', dp, l, l', off)))
  }

  ghost predicate OneEntry(sb: Superblock, f: Fs, dp: nat, l: set<nat>, l': set<nat>, off: nat)
    requires AddrsOk(f) && dp < |f.inodes|
  {
    off % ENTRY == 0 && l' <= l + FS.LogBound(sb, f, dp, off, ENTRY)
  }

  lemma {:induction false} RecordedNothing(sb: Superblock, f: Fs, l: set<nat>, dp: nat)
    requires AddrsOk(f) && dp < |f.inodes|
    ensures Recorded(sb, f, l, f, l, dp)
  {
    FS.TracedSame(f, l, dp);
  }

  lemma {:induction false} OwnedAddrs(sb: Superblock, f: Fs, owner: Owners)
    requires Owned(sb, f, owner, {}, {})
    ensures AddrsOk(f)
  {
  }

  lemma {:induction false} Written(sb: Superblock, f: Fs, l: set<nat>, f': Fs, l': set<nat>, dp: nat, off: nat, r: int)
    requires AddrsOk(f') && dp < |f'.inodes| && FS.Traced(f, l, f', l', dp)
    requires off % ENTRY == 0 && (r == -1 ==> f' == f && l' == l)
    requires r != -1 ==> FS.IBlock(sb, dp) in l' && l' <= l + FS.LogBound(sb, f', dp, off, ENTRY)
    ensures Recorded(sb, f, l, f', l', dp) && |f'.inodes| == |f.inodes|
    ensures f'.inodes == f.inodes[dp := f'.inodes[dp]]
  {
    hide FS.LogBound;
    assert r != -1 ==> OneEntry(sb, f', dp, l, l', off);
  }

  /** Write an entry in place or at the end: all of it or, on a full disk or a full-size directory, none of it. */
  method WriteEntry(fs: FS.FileSystem, dp: nat, off: nat, e: seq<Byte>) returns (ok: bool)
    requires fs.Valid() && dp < |fs.inodes| && off % ENTRY == 0 && off <= fs.inodes[dp].size && |e| == ENTRY
    modifies fs
    ensures fs.Valid() && |fs.inodes| == |old(fs.inodes)| && fs.inodes[dp].typ == old(fs.inodes)[dp].typ
    ensures Contents(fs.Val(), dp) ==
              if ok then Splice(old(Contents(fs.Val(), dp)), off, e) else old(Contents(fs.Val(), dp))
    ensures forall i :: 0 <= i < |fs.inodes| && i != dp ==> Contents(fs.Val(), i) == old(Contents(fs.Val(), i))
    ensures forall i :: 0 <= i < |fs.inodes| ==> fs.inodes[i].typ == old(fs.inodes)[i].typ
    ensures old(fs.inodes)[dp].size >= off + ENTRY ==> ok
    ensures !ok ==> off + ENTRY > MAXFILE * BSIZE || FreeBlocks(fs.sb, fs.Val()) == {}
    ensures Recorded(fs.sb, old(fs.Val()), old(fs.logged), fs.Val(), fs.logged, dp)
    ensures fs.dinodes == old(fs.dinodes) || fs.dinodes == old(fs.dinodes)[dp := fs.inodes[dp]]
    ensures old(fs.dinodes == fs.inodes) ==> fs.dinodes == fs.inodes
  {
    hide Owned, FilesOk, Contents, Splice, FS.LogBound, FreeBlocks, FS.Traced, OneEntry;
    ghost var f, l := fs.Val(), fs.logged;
    SizeBound(fs.Val(), dp);
    InOneBlock(off);
    SpliceNothing(Contents(fs.Val(), dp), off);
    var r := fs.Writei(dp, off, e);
    ok := r == ENTRY;
    assert r >= 0 ==> e[..r] == if r == ENTRY then e else [];
    OwnedAddrs(fs.sb, fs.Val(), fs.owner);
    Written(fs.sb, f, l, fs.Val(), fs.logged, dp, off, r);
  }

  function Encode(inum: nat, name: seq<Byte>): (e: seq<Byte>)
    requires inum < 0x1_0000 && |name| == DIRSIZ
    ensures |e| == ENTRY && Inum(e) == inum && Name(e) == Key(name)
  {
    var head: seq<Byte> := [inum % 0x100, inum / 0x100];
    assert (head + name)[2..] == name;
    head + name
  }

  /** The scan of dirlink: the first unused entry, or the end of the directory. */
  method FindEmpty(fs: FS.FileSystem, dp: nat) returns (off: nat)
    requires DirOk(fs, dp)
    modifies fs
    ensures DirOk(fs, dp) && fs.Val() == old(fs.Val()) && fs.owner == old(fs.owner)
    ensures fs.logged == old(fs.logged) && fs.dinodes == old(fs.dinodes)
    ensures off % ENTRY == 0 && off <= fs.inodes[dp].size && !Live(Contents(fs.Val(), dp), off / ENTRY)
    ensures AllLive(Contents(fs.Val(), dp), off)
  {
    hide Owned, FilesOk, Contents, NoDup, Entry;
    off := 0;
    while off < fs.inodes[dp].size
      invariant DirOk(fs, dp) && fs.Val() == old(fs.Val()) && fs.owner == old(fs.owner)
      invariant fs.logged == old(fs.logged) && fs.dinodes == old(fs.dinodes)
      invariant off % ENTRY == 0 && off <= fs.inodes[dp].size && AllLive(Contents(fs.Val(), dp), off)
    {
      var de := ReadEntry(fs, dp, off);
      if Num(de[0]) + 0x100 * Num(de[1]) == 0 {
        return;
      }
      LiveMore(Contents(fs.Val(), dp), off);
      off := off + ENTRY;
    }
  }

  /** No entry before off is unused. */
  ghost predicate AllLive(c: seq<Byte>, off: nat) {
    forall k: nat :: ENTRY * k + ENTRY <= off && off <= |c| ==> Live(c, k)
  }

  lemma {:induction false} LiveMore(c: seq<Byte>, off: nat)
    requires AllLive(c, off) && off % ENTRY == 0 && off + ENTRY <= |c| && Inum(Entry(c, off / ENTRY)) != 0
    ensures AllLive(c, off + ENTRY)
  {
    hide Inum, Entry;
    forall k: nat | ENTRY * k + ENTRY <= off + ENTRY ensures Live(c, k) {
      assert ENTRY * k + ENTRY > off ==> k == off / ENTRY;
    }
  }

  lemma {:induction false} SpliceSize(c: seq<Byte>, off: nat, e: seq<Byte>)
    requires off <= |c| && |e| == ENTRY && off % ENTRY == 0 && Whole(c)
    ensures |Splice(c, off, e)| == if off == |c| then |c| + ENTRY else |c|
  {
  }

  /** dirlink: insert a binding if the name is free. */
  method Dirlink(fs: FS.FileSystem, dp: nat, name: seq<Byte>, inum: nat) returns (r: int)
    requires DirOk(fs, dp) && 0 < inum < 0x1_0000
    modifies fs
    ensures DirOk(fs, dp) && |fs.inodes| == |old(fs.inodes)|
    ensures r == 0 || r == -1
    ensures r == 0 ==> Key(name) !in old(DirOf(fs, dp)) && DirOf(fs, dp) == old(DirOf(fs, dp))[Key(name) := inum]
    ensures r == -1 ==> DirOf(fs, dp) == old(DirOf(fs, dp))
    ensures r == -1 && Key(name) !in old(DirOf(fs, dp)) ==>
              && old(AllLive(Contents(fs.Val(), dp), fs.inodes[dp].size))
              && (fs.inodes[dp].size + ENTRY > MAXFILE * BSIZE || FreeBlocks(fs.sb, fs.Val()) == {})
    ensures fs.inodes[dp].size == old(fs.inodes[dp].size)
            || (fs.inodes[dp].size == old(fs.inodes[dp].size) + ENTRY
                && old(AllLive(Contents(fs.Val(), dp), fs.inodes[dp].size)))
    ensures forall i :: 0 <= i < |fs.inodes| && i != dp ==> Contents(fs.Val(), i) == old(Contents(fs.Val(), i))
    ensures forall i :: 0 <= i < |fs.inodes| ==> fs.inodes[i].typ == old(fs.inodes)[i].typ
    ensures Recorded(fs.sb, old(fs.Val()), old(fs.logged), fs.Val(), fs.logged, dp)
    ensures old(fs.dinodes == fs.inodes) ==> fs.dinodes == fs.inodes
  {
    hide Owned, FilesOk, Contents, Dir, NoDup, Entry, Cut, Splice, Inum, Name, FreeBlocks, Recorded, AllLive;
    ghost var c := Contents(fs.Val(), dp);
    OwnedAddrs(fs.sb, fs.Val(), fs.owner);
    RecordedNothing(fs.sb, fs.Val(), fs.logged, dp);
    var ip, poff := Dirlookup(fs, dp, name);
    if ip != 0 {
      return -1;
    }
    var off := FindEmpty(fs, dp);
    var padded := PadName(name);
    var de := Encode(inum, padded);
    Insert(c, off / ENTRY, de);
    SpliceSize(c, off, de);
    var ok := WriteEntry(fs, dp, off, de);
    r := if ok then 0 else -1;
  }

  /** dirunlink: remove the binding of the name; overwriting in place cannot fail. */
  method Dirunlink(fs: FS.FileSystem, dp: nat, name: seq<Byte>) returns (r: int)
    requires DirOk(fs, dp)
    modifies fs
    ensures DirOk(fs, dp) && |fs.inodes| == |old(fs.inodes)|
    ensures r == if Key(name) in old(DirOf(fs, dp)) then 0 else -1
    ensures DirOf(fs, dp) == old(DirOf(fs, dp)) - {Key(name)} && fs.inodes[dp].size == old(fs.inodes[dp].size)
    ensures forall i :: 0 <= i < |fs.inodes| && i != dp ==> Contents(fs.Val(), i) == old(Contents(fs.Val(), i))
    ensures forall i :: 0 <= i < |fs.inodes| ==> fs.inodes[i].typ == old(fs.inodes)[i].typ
    ensures Recorded(fs.sb, old(fs.Val()), old(fs.logged), fs.Val(), fs.logged, dp)
    ensures old(fs.dinodes == fs.inodes) ==> fs.dinodes == fs.inodes
  {
    hide Owned, FilesOk, Contents, Dir, NoDup, Entry, Passed, Cut, Splice, Recorded;
    ghost var c := Contents(fs.Val(), dp);
    OwnedAddrs(fs.sb, fs.Val(), fs.owner);
    RecordedNothing(fs.sb, fs.Val(), fs.logged, dp);
    var off := 0;
    NothingPassed(c, Key(name));
    while off < fs.inodes[dp].size
      invariant DirOk(fs, dp) && fs.Val() == old(fs.Val())
      invariant fs.logged == old(fs.logged) && fs.dinodes == old(fs.dinodes)
      invariant off % ENTRY == 0 && off <= |c| && Passed(c, off, Key(name))
    {
      var de := ReadEntry(fs, dp, off);
      var same := SameName(de[2..], name, DIRSIZ);
      if same && Num(de[0]) + 0x100 * Num(de[1]) != 0 {
        var cleared := de[0 := 0][1 := 0];
        LiveBound(c, off / ENTRY);
        Remove(c, off / ENTRY, cleared);
        SpliceSize(c, off, cleared);
        var ok := WriteEntry(fs, dp, off, cleared);
        return 0;
      }
      PassOne(c, off, Key(name));
      off := off + ENTRY;
    }
    PassAll(c, Key(name));
    assert Dir(c) - {Key(name)} == Dir(c);
    return -1;
  }

  /**
   rename within one directory, run by itself: success moves exactly one binding, failure
   changes none.  An entry for the directory itself is locked twice, so that rename is
   stuck with the new name added and the old one still there.
   */
  method Rename(fs: FS.FileSystem, dp: nat, from: seq<Byte>, to: seq<Byte>)
    returns (r: int, stuck: bool, ghost mid: Fs, ghost midLogged: set<nat>, ghost midOwner: Owners)
    requires DirOk(fs, dp)
    modifies fs
    ensures DirOk(fs, dp) && |fs.inodes| == |old(fs.inodes)|
    ensures stuck ==>
              && Key(from) in old(DirOf(fs, dp)) && old(DirOf(fs, dp))[Key(from)] == dp
              && Key(to) !in old(DirOf(fs, dp)) && DirOf(fs, dp) == old(DirOf(fs, dp))[Key(to) := dp]
    ensures !stuck ==> r == 0 || r == -1
    ensures !stuck && r == 0 ==>
              && Key(from) in old(DirOf(fs, dp)) && old(DirOf(fs, dp))[Key(from)] != dp
              && Key(to) !in old(DirOf(fs, dp))
              && DirOf(fs, dp) == (old(DirOf(fs, dp)) - {Key(from)})[Key(to) := old(DirOf(fs, dp))[Key(from)]]
    ensures !stuck && r == -1 ==> DirOf(fs, dp) == old(DirOf(fs, dp))
    ensures !stuck && r == -1 && Key(from) in old(DirOf(fs, dp)) && Key(to) !in old(DirOf(fs, dp)) ==>
              fs.inodes[dp].size + ENTRY > MAXFILE * BSIZE || FreeBlocks(fs.sb, fs.Val()) == {}
    ensures stuck <==> Key(from) in old(DirOf(fs, dp)) && old(DirOf(fs, dp))[Key(from)] == dp
                       && Key(to) in DirOf(fs, dp) && Key(to) !in old(DirOf(fs, dp))
    ensures forall i :: 0 <= i < |fs.inodes| && i != dp ==> Contents(fs.Val(), i) == old(Contents(fs.Val(), i))
    ensures forall i :: 0 <= i < |fs.inodes| ==> fs.inodes[i].typ == old(fs.inodes)[i].typ
    ensures Recorded(fs.sb, old(fs.Val()), old(fs.logged), mid, midLogged, dp)
    ensures Recorded(fs.sb, mid, midLogged, fs.Val(), fs.logged, dp) && Owned(fs.sb, mid, midOwner, {}, {})
    ensures old(fs.dinodes == fs.inodes) ==> fs.dinodes == fs.inodes
  {
    hide Owned, FilesOk, Contents, Dir, NoDup, Cut, FreeBlocks, Recorded;
    ghost var d := DirOf(fs, dp);
    mid, midLogged, midOwner := fs.Val(), fs.logged, fs.owner;
    OwnedAddrs(fs.sb, mid, midOwner);
    RecordedNothing(fs.sb, mid, midLogged, dp);
    var ip, poff := Dirlookup(fs, dp, from);
    if ip == 0 {
      r, stuck := -1, false;
      return;
    }
    InumFits(Contents(fs.Val(), dp), Key(from));
    r := Dirlink(fs, dp, to, ip);
    mid, midLogged, midOwner := fs.Val(), fs.logged, fs.owner;
    OwnedAddrs(fs.sb, mid, midOwner);
    RecordedNothing(fs.sb, mid, midLogged, dp);
    if r < 0 {
      r, stuck := -1, false;
      return;
    }
    if ip == dp {
      r, stuck := -1, true;
      return;
    }
    // `from` is still bound, so the undo that follows a failed dirunlink is never needed.
    r := Dirunlink(fs, dp, from);
    stuck := false;
  }

  lemma {:induction false} InumFits(c: seq<Byte>, name: seq<Byte>)
    requires name in Dir(c)
    ensures 0 < Dir(c)[name] < 0x1_0000
  {
  }
}
