/**
 Block allocation, block mapping, truncation, reading and writing of kernel/fs.c
 and the chunked write of kernel/file.c, over the block map that the cache and
 the log provide.
 */
module FileSystem {
  import opened FsState
  import opened FsContents
  import Sequences

  /** f' has the files of f: same sizes, same bytes. */
  ghost predicate SameFiles(f: Fs, f': Fs) {
    && FilesOk(f) && FilesOk(f') && |f'.inodes| == |f.inodes|
    && forall i :: 0 <= i < |f.inodes| ==>
         && f'.inodes[i].size == f.inodes[i].size && f'.inodes[i].typ == f.inodes[i].typ
         && Contents(f', i) == Contents(f, i)
  }

  /** f' refers to everything f refers to, and holds the same data there. */
  ghost predicate Grown(sb: Superblock, f: Fs, f': Fs) {
    && AddrsOk(f) && AddrsOk(f') && |f'.inodes| == |f.inodes| && |f'.store| == |f.store| == sb.size
    && (forall i :: 0 <= i < |f.inodes| ==>
          f'.inodes[i].size == f.inodes[i].size && f'.inodes[i].typ == f.inodes[i].typ)
    && (forall i, k :: 0 <= i < |f.inodes| && 0 <= k < NSLOTS && Ref(f, i, k) != 0 ==> Ref(f', i, k) == Ref(f, i, k))
    && (forall i, k :: 0 <= i < |f.inodes| && 0 <= k < NSLOTS && k != NDIRECT && 0 < Ref(f, i, k) < sb.size ==>
          f'.store[Ref(f, i, k)] == f.store[Ref(f, i, k)])
  }

  lemma {:induction false} GrownTwice(sb: Superblock, f: Fs, g: Fs, h: Fs)
    requires Grown(sb, f, g) && Grown(sb, g, h)
    ensures Grown(sb, f, h)
  {
  }

  lemma {:induction false} GrownSameFiles(sb: Superblock, f: Fs, f': Fs)
    requires Grown(sb, f, f') && FilesOk(f)
    ensures SameFiles(f, f')
  {
    forall i | 0 <= i < |f.inodes|
      ensures Present(f', i, f'.inodes[i].size) && Bytes(f', i, f'.inodes[i].size) == Bytes(f, i, f.inodes[i].size)
    {
      BytesKept(f, f', i, f.inodes[i].size);
    }
  }

  lemma {:induction false} AllocGrows(sb: Superblock, f: Fs, owner: Owners, b: nat)
    requires Owned(sb, f, owner, {}, {}) && b < sb.size && !Marked(sb, f, b)
    ensures Grown(sb, f, Alloc(sb, f, b))
  {
    hide Marked;
    AllocKeeps(sb, f, owner, {}, b);
  }

  /** The blocks that hold the free bitmap. */
  ghost function Bitmap(sb: Superblock): (s: set<nat>) {
    set b: nat | b < sb.size :: BBlock(sb, b)
  }

  lemma {:induction false} AtAddr(sb: Superblock, f: Fs, owner: Owners, i: nat, k: nat)
    requires Owned(sb, f, owner, {}, {}) && i < |f.inodes| && k <= NDIRECT
    ensures f.inodes[i].addrs[k] == Ref(f, i, k) && SameRefsBut(f, f, (i, k), Ref(f, i, k)) && Grown(sb, f, f)
  {
  }

  lemma {:induction false} AtWord(sb: Superblock, f: Fs, owner: Owners, i: nat, j: nat)
    requires Owned(sb, f, owner, {}, {}) && i < |f.inodes| && j < NINDIRECT && Ref(f, i, NDIRECT) != 0
    ensures Ref(f, i, NDIRECT) < sb.size == |f.store| < 0x1_0000_0000
    ensures Word(f.store[Ref(f, i, NDIRECT)], j) == Ref(f, i, NDIRECT + 1 + j)
    ensures SameRefsBut(f, f, (i, NDIRECT + 1 + j), Ref(f, i, NDIRECT + 1 + j)) && Grown(sb, f, f)
  {
  }

  lemma {:induction false} InBitmap(sb: Superblock, b: nat)
    requires b < sb.size
    ensures BBlock(sb, b) in Bitmap(sb)
  {
  }

  /** balloc and the link that follows it, on values: a fresh block in an empty slot of inode i. */
  lemma {:induction false} NewAddr(sb: Superblock, f: Fs, owner: Owners, i: nat, k: nat, b: nat)
    requires Owned(sb, f, owner, {}, {}) && FilesOk(f) && b < sb.size && !Marked(sb, f, b)
    requires i < |f.inodes| && k <= NDIRECT && Ref(f, i, k) == 0
    ensures b != 0
    ensures var f' := SetAddr(Alloc(sb, f, b), i, k, b);
            && Owned(sb, f', owner[b := (i, k)], {}, {}) && Grown(sb, f, f') && FilesOk(f')
            && SameRefsBut(f, f', (i, k), b)
  {
    hide Marked, Ref, BitsOk, RefsOk, Alloc;
    AllocGrows(sb, f, owner, b);
    AllocKeeps(sb, f, owner, {}, b);
    var g := Alloc(sb, f, b);
    assert {} + {b} == {b} && {b} - {b} == {};
    LinkAddr(sb, g, owner, {b}, i, k, b);
    GrownSameFiles(sb, f, SetAddr(g, i, k, b));
  }

  lemma {:induction false} NewWord(sb: Superblock, f: Fs, owner: Owners, i: nat, j: nat, b: nat)
    requires Owned(sb, f, owner, {}, {}) && FilesOk(f) && b < sb.size && !Marked(sb, f, b)
    requires i < |f.inodes| && j < NINDIRECT && Ref(f, i, NDIRECT) != 0 && Ref(f, i, NDIRECT + 1 + j) == 0
    ensures b != 0 && Ref(f, i, NDIRECT) < sb.size
    ensures var f' := SetWord(Alloc(sb, f, b), Ref(f, i, NDIRECT), j, b);
            && Owned(sb, f', owner[b := (i, NDIRECT + 1 + j)], {}, {}) && Grown(sb, f, f') && FilesOk(f')
            && SameRefsBut(f, f', (i, NDIRECT + 1 + j), b)
  {
    hide Marked, Ref, BitsOk, RefsOk, Alloc, FilesOk, PutWord, Word;
    AllocGrows(sb, f, owner, b);
    AllocKeeps(sb, f, owner, {}, b);
    var g := Alloc(sb, f, b);
    assert {} + {b} == {b} && {b} - {b} == {};
    LinkWord(sb, g, owner, {b}, i, j, b);
    var f' := SetWord(g, Ref(f, i, NDIRECT), j, b);
    OnlyIndirectChanged(sb, g, owner, i, j, b);
    GrownTwice(sb, f, g, f');
    GrownSameFiles(sb, f, f');
  }

  lemma {:induction false} NoIndirect(f: Fs, i: nat, k: nat)
    requires AddrsOk(f) && i < |f.inodes| && NDIRECT < k < NSLOTS && Ref(f, i, NDIRECT) == 0
    ensures Ref(f, i, k) == 0
  {
  }

  lemma {:induction false} OnlyIndirectChanged(sb: Superblock, f: Fs, owner: Owners, i: nat, j: nat, b: nat)
    requires Owned(sb, f, owner, {b}, {}) && i < |f.inodes| && j < NINDIRECT && b < 0x1_0000_0000
    requires 0 != Ref(f, i, NDIRECT) < sb.size && Ref(f, i, NDIRECT + 1 + j) == 0
    requires SameRefsBut(f, SetWord(f, Ref(f, i, NDIRECT), j, b), (i, NDIRECT + 1 + j), b)
    ensures Grown(sb, f, SetWord(f, Ref(f, i, NDIRECT), j, b))
  {
    hide Marked;
    var a := Ref(f, i, NDIRECT);
    assert owner[a] == (i, NDIRECT);
  }

  /** Everything but the bytes of inode ip is as before. */
  ghost predicate OthersSame(f: Fs, f': Fs, ip: nat) {
    && FilesOk(f) && FilesOk(f') && |f'.inodes| == |f.inodes|
    && forall i :: 0 <= i < |f.inodes| ==>
         && f'.inodes[i].size == f.inodes[i].size && f'.inodes[i].typ == f.inodes[i].typ
         && (i != ip ==> Contents(f', i) == Contents(f, i))
  }

  function Max(a: nat, b: nat): (m: nat) {
    if a < b then b else a
  }

  /** memmove of d to offset off of inode i, which must have a block there. */
  function WriteAt(f: Fs, i: nat, off: nat, d: seq<Byte>): (f': Fs)
    requires i < |f.inodes| && |f.inodes[i].addrs| == NDIRECT + 1
    requires off % BSIZE + |d| <= BSIZE && off < MAXFILE * BSIZE && Ref(f, i, Slot(off / BSIZE)) < |f.store|
  {
    SetBlock(f, Ref(f, i, Slot(off / BSIZE)), Patch(f.store[Ref(f, i, Slot(off / BSIZE))], off % BSIZE, d))
  }

  lemma {:induction false} WriteOwned(sb: Superblock, f: Fs, owner: Owners, i: nat, off: nat, d: seq<Byte>)
    requires Owned(sb, f, owner, {}, {}) && i < |f.inodes|
    requires off % BSIZE + |d| <= BSIZE && off < MAXFILE * BSIZE && Ref(f, i, Slot(off / BSIZE)) != 0
    ensures Ref(f, i, Slot(off / BSIZE)) < |f.store|
    ensures Owned(sb, WriteAt(f, i, off, d), owner, {}, {})
    ensures forall x, k :: 0 <= x < |f.inodes| && 0 <= k < NSLOTS ==> Ref(WriteAt(f, i, off, d), x, k) == Ref(f, x, k)
    ensures forall x, k ::
              0 <= x < |f.inodes| && 0 <= k < NSLOTS && (x, k) != (i, Slot(off / BSIZE)) && Ref(f, x, k) != 0 ==>
              Ref(f, x, k) != Ref(f, i, Slot(off / BSIZE)) && Ref(f, x, k) < |f.store|
  {
    hide Marked;
    var b := Ref(f, i, Slot(off / BSIZE));
    assert owner[b] == (i, Slot(off / BSIZE));
    DataKeeps(sb, f, owner, {}, b, Patch(f.store[b], off % BSIZE, d));
  }

  /** Writing into one file splices its bytes and leaves every other file alone. */
  lemma {:induction false} WriteSplices(sb: Superblock, f: Fs, owner: Owners, i: nat, n: nat, off: nat, d: seq<Byte>)
    requires Owned(sb, f, owner, {}, {}) && FilesOk(f) && Present(f, i, n) && off <= n
    requires 0 < |d| && off % BSIZE + |d| <= BSIZE && off < MAXFILE * BSIZE && Ref(f, i, Slot(off / BSIZE)) != 0
    ensures Ref(f, i, Slot(off / BSIZE)) < |f.store|
    ensures OthersSame(f, WriteAt(f, i, off, d), i)
    ensures Present(WriteAt(f, i, off, d), i, Max(n, off + |d|))
    ensures Bytes(WriteAt(f, i, off, d), i, Max(n, off + |d|)) == Splice(Bytes(f, i, n), off, d)
  {
    hide Marked, BitsOk, RefsOk, Ref, Patch;
    WriteOwned(sb, f, owner, i, off, d);
    var f' := WriteAt(f, i, off, d);
    BytesPatched(f, f', i, n, off, d);
    forall x | 0 <= x < |f.inodes|
      ensures Present(f', x, f.inodes[x].size)
      ensures x != i ==> Bytes(f', x, f.inodes[x].size) == Bytes(f, x, f.inodes[x].size)
    {
      if x != i {
        BytesKept(f, f', x, f.inodes[x].size);
      }
    }
  }

  /** What f refers to, f' refers to in the same slots. */
  ghost predicate KeepsRefs(f: Fs, f': Fs) {
    && AddrsOk(f) && AddrsOk(f') && |f'.inodes| == |f.inodes|
    && forall i, k :: 0 <= i < |f.inodes| && 0 <= k < NSLOTS && Ref(f, i, k) != 0 ==> Ref(f', i, k) == Ref(f, i, k)
  }

  lemma {:induction false} GrownKeeps(sb: Superblock, f: Fs, f': Fs, i: nat, n: nat)
    requires Grown(sb, f, f') && FilesOk(f) && Present(f, i, n)
    ensures KeepsRefs(f, f') && OthersSame(f, f', i)
    ensures Present(f', i, n) && Bytes(f', i, n) == Bytes(f, i, n)
  {
    GrownSameFiles(sb, f, f');
    BytesKept(f, f', i, n);
  }

  lemma {:induction false} OthersSameTwice(f: Fs, g: Fs, h: Fs, ip: nat)
    requires OthersSame(f, g, ip) && OthersSame(g, h, ip)
    ensures OthersSame(f, h, ip)
  {
    hide FilesOk, Contents;
  }

  /** The blocks that hold bytes lo * BSIZE up to hi * BSIZE of a file. */
  ghost function Touched(f: Fs, i: nat, lo: nat, hi: nat): (s: set<nat>)
    requires AddrsOk(f) && i < |f.inodes|
  {
    set bn | lo <= bn < hi && bn < MAXFILE :: Ref(f, i, Slot(bn))
  }

  /** IBLOCK */
  function IBlock(sb: Superblock, i: nat): (b: nat) {
    i / 16 + sb.inodestart
  }

  /** The data and indirect blocks that a write of n bytes at off may log. */
  ghost function DataBound(f: Fs, i: nat, off: nat, n: nat): (s: set<nat>)
    requires AddrsOk(f) && i < |f.inodes|
  {
    {Ref(f, i, NDIRECT)} + Touched(f, i, off / BSIZE, (off + n + BSIZE - 1) / BSIZE) - {0}
  }

  /** Every block a write of n bytes at off may pass to log_write. */
  ghost function LogBound(sb: Superblock, f: Fs, i: nat, off: nat, n: nat): (s: set<nat>)
    requires AddrsOk(f) && i < |f.inodes|
  {
    Bitmap(sb) + {IBlock(sb, i)} + DataBound(f, i, off, n)
  }

  lemma {:induction false} BoundStep(f: Fs, f': Fs, i: nat, off: nat, tot: nat, m: nat)
    requires KeepsRefs(f, f') && i < |f.inodes|
    requires 0 < m && (off + tot) % BSIZE + m <= BSIZE && off + tot + m <= MAXFILE * BSIZE
    ensures DataBound(f, i, off, tot) <= DataBound(f', i, off, tot + m)
    ensures {Ref(f', i, NDIRECT), Ref(f', i, Slot((off + tot) / BSIZE))} - {0} <= DataBound(f', i, off, tot + m)
  {
    hide Ref;
    var bn := (off + tot) / BSIZE;
    assert off / BSIZE <= bn < (off + tot + m + BSIZE - 1) / BSIZE;
    assert (off + tot + BSIZE - 1) / BSIZE <= (off + tot + m + BSIZE - 1) / BSIZE;
  }

  lemma {:induction false} BoundGrows(f: Fs, i: nat, off: nat, a: nat, b: nat)
    requires AddrsOk(f) && i < |f.inodes| && a <= b
    ensures DataBound(f, i, off, a) <= DataBound(f, i, off, b)
  {
    hide Ref;
    assert (off + a + BSIZE - 1) / BSIZE <= (off + b + BSIZE - 1) / BSIZE;
  }

  lemma {:induction false} TouchedSize(f: Fs, i: nat, lo: nat, hi: nat)
    requires AddrsOk(f) && i < |f.inodes| && lo <= hi
    ensures |Touched(f, i, lo, hi)| <= hi - lo
    decreases hi - lo
  {
    if lo < hi {
      TouchedSize(f, i, lo, hi - 1);
      if hi - 1 < MAXFILE {
        assert Touched(f, i, lo, hi) == Touched(f, i, lo, hi - 1) + {Ref(f, i, Slot(hi - 1))};
      } else {
        assert Touched(f, i, lo, hi) == Touched(f, i, lo, hi - 1);
      }
    } else {
      assert Touched(f, i, lo, hi) == {};
    }
  }

  /** A chunk of at most three blocks logs at most seven when the bitmap is one block. */
  lemma {:induction false} ChunkLogsSeven(sb: Superblock, f: Fs, i: nat, off: nat, n: nat)
    requires AddrsOk(f) && i < |f.inodes| && 0 < sb.size <= BPB && n <= 3 * BSIZE
    ensures |LogBound(sb, f, i, off, n)| <= 7
  {
    var lo, hi := off / BSIZE, (off + n + BSIZE - 1) / BSIZE;
    TouchedSize(f, i, lo, Max(lo, hi));
    assert BBlock(sb, 0) == sb.bmapstart;
    assert Bitmap(sb) == {sb.bmapstart};
    var three := {sb.bmapstart, IBlock(sb, i), Ref(f, i, NDIRECT)};
    assert LogBound(sb, f, i, off, n) <= three + Touched(f, i, lo, hi);
    Sequences.SubsetCount(LogBound(sb, f, i, off, n), three + Touched(f, i, lo, hi));
    assert |three| <= 3;
  }

  /** Bytes off up to off + m of a file, found in one block. */
  lemma {:induction false} BlockHolds(f: Fs, i: nat, off: nat, m: nat)
    requires FilesOk(f) && i < |f.inodes| && off + m <= f.inodes[i].size && 0 < m && off % BSIZE + m <= BSIZE
    ensures off < MAXFILE * BSIZE && AddrsOk(f) && 0 < Ref(f, i, Slot(off / BSIZE)) < |f.store|
    ensures f.store[Ref(f, i, Slot(off / BSIZE))][off % BSIZE..off % BSIZE + m] == Contents(f, i)[off..off + m]
  {
    assert Present(f, i, f.inodes[i].size);
    assert off / BSIZE * BSIZE < f.inodes[i].size;
    var blk := f.store[Ref(f, i, Slot(off / BSIZE))];
    var inBlock := blk[off % BSIZE..off % BSIZE + m];
    var inFile := Contents(f, i)[off..off + m];
    forall p | 0 <= p < m ensures inBlock[p] == inFile[p] {
      assert (off + p) / BSIZE == off / BSIZE && (off + p) % BSIZE == off % BSIZE + p;
      assert Contents(f, i)[off + p] == Raw(f, i, off + p);
    }
  }

  lemma {:induction false} Adjacent(c: seq<Byte>, a: nat, b: nat, d: nat)
    requires a <= b <= d <= |c|
    ensures c[a..b] + c[b..d] == c[a..d]
  {
  }

  /** The blocks that inode i owns. */
  ghost function OwnedBy(owner: Owners, i: nat): (s: set<nat>) {
    set b | b in owner && owner[b].0 == i
  }

  /** Freeing blocks of inode ip touches no data block and no other inode. */
  ghost predicate Freed(sb: Superblock, f: Fs, f': Fs, ip: nat) {
    && AddrsOk(f) && AddrsOk(f') && |f'.inodes| == |f.inodes| && |f'.store| == |f.store| == sb.size
    && ip < |f.inodes| && f'.inodes[ip].size == f.inodes[ip].size && f'.inodes[ip].typ == f.inodes[ip].typ
    && (forall i :: 0 <= i < |f.inodes| && i != ip ==> f'.inodes[i] == f.inodes[i])
    && (forall i, k :: 0 <= i < |f.inodes| && i != ip && 0 <= k < NSLOTS ==> Ref(f', i, k) == Ref(f, i, k))
    && (forall b :: sb.nmeta <= b < sb.size ==> f'.store[b] == f.store[b])
  }

  lemma {:induction false} FreedTwice(sb: Superblock, f: Fs, g: Fs, h: Fs, ip: nat)
    requires Freed(sb, f, g, ip) && Freed(sb, g, h, ip)
    ensures Freed(sb, f, h, ip)
  {
    hide Ref;
  }

  lemma {:induction false} FreedContents(sb: Superblock, f: Fs, f': Fs, owner: Owners, ip: nat)
    requires Freed(sb, f, f', ip) && Owned(sb, f, owner, {}, {}) && FilesOk(f)
    ensures FilesOk(SetSize(f', ip, 0)) && Contents(SetSize(f', ip, 0), ip) == []
    ensures forall i :: 0 <= i < |f.inodes| && i != ip ==> Contents(SetSize(f', ip, 0), i) == Contents(f, i)
  {
    hide Marked;
    var h := SetSize(f', ip, 0);
    forall i | 0 <= i < |f.inodes|
      ensures Present(h, i, h.inodes[i].size)
      ensures i != ip ==> Bytes(h, i, h.inodes[i].size) == Bytes(f, i, f.inodes[i].size)
    {
      if i != ip {
        assert forall k :: 0 <= k < NSLOTS ==> Ref(h, i, k) == Ref(f', i, k);
        BytesKept(f, h, i, f.inodes[i].size);
      }
    }
  }

  /** Only logged blocks changed, and no inode but ip. */
  ghost predicate Traced(f: Fs, logged: set<nat>, f': Fs, logged': set<nat>, ip: nat) {
    && logged <= logged' && |f'.store| == |f.store| && |f'.inodes| == |f.inodes|
    && (forall b :: 0 <= b < |f.store| && b !in logged' ==> f'.store[b] == f.store[b])
    && (forall i :: 0 <= i < |f.inodes| && i != ip ==> f'.inodes[i] == f.inodes[i])
  }

  /** Truncation: only bitmap blocks were logged, and the inode keeps its type. */
  ghost predicate Trimmed(sb: Superblock, f: Fs, l: set<nat>, f': Fs, l': set<nat>, ip: nat) {
    && Traced(f, l, f', l', ip) && l' <= l + Bitmap(sb) && ip < |f.inodes| && f'.inodes[ip].typ == f.inodes[ip].typ
  }

  lemma {:induction false} TrimmedSame(sb: Superblock, f: Fs, l: set<nat>, ip: nat)
    requires ip < |f.inodes|
    ensures Trimmed(sb, f, l, f, l, ip)
  {
  }

  lemma {:induction false} TrimmedTwice(sb: Superblock, f: Fs, l: set<nat>, f1: Fs, l1: set<nat>, f2: Fs, l2: set<nat>,
                                        ip: nat)
    requires Trimmed(sb, f, l, f1, l1, ip) && Trimmed(sb, f1, l1, f2, l2, ip)
    ensures Trimmed(sb, f, l, f2, l2, ip)
  {
    hide Traced, Bitmap;
    SameLength(f, l, f1, l1, ip);
    TracedTwice(f, l, f1, l1, f2, l2, ip);
  }

  lemma {:induction false} SameLength(f: Fs, l: set<nat>, f': Fs, l': set<nat>, ip: nat)
    requires Traced(f, l, f', l', ip)
    ensures |f'.inodes| == |f.inodes|
  {
  }

  /** The size set to 0 and the inode logged. */
  lemma {:induction false} TrimmedDone(sb: Superblock, f: Fs, l: set<nat>, f': Fs, l': set<nat>, ip: nat)
    requires Trimmed(sb, f, l, f', l', ip)
    ensures |f'.inodes| == |f.inodes| && l' <= l + Bitmap(sb)
    ensures var inodes := f'.inodes[ip := Inode(f'.inodes[ip].typ, 0, f'.inodes[ip].addrs)];
            && Traced(f, l, Fs(f'.store, inodes), l' + {IBlock(sb, ip)}, ip)
            && forall i :: 0 <= i < |inodes| ==> inodes[i].typ == f.inodes[i].typ
  {
    hide Bitmap;
  }

  /** One block freed and its reference cleared. */
  lemma {:induction false} TrimmedOne(sb: Superblock, f: Fs, l: set<nat>, b: nat, ip: nat, x: Inode)
    requires b < sb.size && BBlock(sb, b) < |f.store| && ip < |f.inodes| && x.typ == f.inodes[ip].typ
    ensures var g := Mark(sb, f, b, false);
            Trimmed(sb, f, l, Fs(g.store, f.inodes[ip := x]), l + {BBlock(sb, b)}, ip)
  {
    hide BitOf;
    assert BBlock(sb, b) in Bitmap(sb);
  }

  lemma {:induction false} TracedSame(f: Fs, logged: set<nat>, ip: nat)
    ensures Traced(f, logged, f, logged, ip)
  {
  }

  lemma {:induction false} TracedTwice(f: Fs, l: set<nat>, f1: Fs, l1: set<nat>, f2: Fs, l2: set<nat>, ip: nat)
    requires Traced(f, l, f1, l1, ip) && Traced(f1, l1, f2, l2, ip)
    ensures Traced(f, l, f2, l2, ip)
  {
  }

  class FileSystem {
    const sb: Superblock
    var store: seq<ByteBlock>
    var inodes: seq<Inode>      // in-memory inodes
    var dinodes: seq<Inode>     // on-disk inodes
    ghost var owner: Owners
    var logged: set<nat>        // blocks passed to log_write since begin_op

    constructor (superblock: Superblock, f: Fs, ghost own: Owners)
      requires Owned(superblock, f, own, {}, {}) && FilesOk(f)
      ensures sb == superblock && Val() == f && owner == own && logged == {} && dinodes == inodes
    {
      sb, store, inodes, dinodes := superblock, f.store, f.inodes, f.inodes;
      owner, logged := own, {};
    }

    ghost function Val(): (f: Fs)
      reads this
    {
      Fs(store, inodes)
    }

    ghost predicate Valid()
      reads this
    {
      Owned(sb, Val(), owner, {}, {}) && FilesOk(Val()) && |dinodes| == |inodes|
    }

    /** The search of balloc: the lowest free block, or sb.size. */
    method FindFree() returns (b: nat)
      requires LayoutOk(sb, Val()) && forall c :: 0 <= c < sb.size ==> BBlock(sb, c) < sb.nmeta
      ensures b <= sb.size
      ensures b < sb.size ==> !Marked(sb, Val(), b)
      ensures forall c :: 0 <= c < b ==> Marked(sb, Val(), c)
    {
      var base := 0;
      while base < sb.size
        invariant base % BPB == 0
        invariant forall c :: 0 <= c < base && c < sb.size ==> Marked(sb, Val(), c)
      {
        assert BBlock(sb, base) < sb.nmeta;
        var data := store[BBlock(sb, base)];
        var bi := 0;
        while bi < BPB && base + bi < sb.size
          invariant bi <= BPB && base + bi <= sb.size
          invariant forall c :: 0 <= c < base + bi && c < sb.size ==> Marked(sb, Val(), c)
        {
          assert BBlock(sb, base + bi) == BBlock(sb, base) && (base + bi) % BPB == bi;
          if !BitOf(data[bi / 8], bi % 8) {
            return base + bi;
          }
          bi := bi + 1;
        }
        base := base + BPB;
      }
      b := sb.size;
    }

    /** balloc: the lowest free block, marked and zeroed; 0 if there is none. */
    method Balloc() returns (b: nat)
      requires Valid()
      modifies this`store, this`logged
      ensures b == 0 <==> FreeBlocks(sb, old(Val())) == {}
      ensures b == 0 ==> store == old(store) && logged == old(logged)
      ensures b != 0 ==>
                && b < sb.size && !Marked(sb, old(Val()), b)
                && (forall c :: 0 <= c < b ==> Marked(sb, old(Val()), c))
                && Val() == Alloc(sb, old(Val()), b) && |store| == sb.size
                && logged == old(logged) + {BBlock(sb, b), b}
      ensures forall ip :: Traced(old(Val()), old(logged), Val(), logged, ip)
    {
      assert forall c :: 0 <= c < sb.size ==> BBlock(sb, c) < sb.nmeta;
      b := FindFree();
      if b == sb.size {
        assert FreeBlocks(sb, Val()) == {};
        return 0;
      }
      ghost var f := Val();
      assert b in FreeBlocks(sb, f);
      assert BBlock(sb, 0) < sb.nmeta;
      assert b != 0;
      var bp := BBlock(sb, b);
      store := store[bp := store[bp][b % BPB / 8 := ByteWithBit(store[bp][b % BPB / 8], b % BPB % 8, true)]];
      logged := logged + {bp};
      store := store[b := Zeros()];
      logged := logged + {b};
    }

    /** The part of bmap that reads a slot of the inode and fills it if it is empty. */
    method MapAddr(ip: nat, k: nat) returns (addr: nat)
      requires Valid() && ip < |inodes| && k <= NDIRECT
      modifies this`store, this`inodes, this`owner, this`logged
      ensures Valid() && Grown(sb, old(Val()), Val())
      ensures SameRefsBut(old(Val()), Val(), (ip, k), addr)
      ensures addr == 0 ==> FreeBlocks(sb, old(Val())) == {}
      ensures addr == 0 || old(Ref(Val(), ip, k)) != 0 ==>
                Val() == old(Val()) && owner == old(owner) && logged == old(logged)
      ensures logged <= old(logged) + Bitmap(sb) + ({addr} - {0})
      ensures Traced(old(Val()), old(logged), Val(), logged, ip)
    {
      hide Marked, BitsOk, RefsOk, FilesOk, Grown, Bitmap, FreeBlocks;
      ghost var f := Val();
      AtAddr(sb, f, owner, ip, k);
      addr := inodes[ip].addrs[k];
      if addr == 0 {
        addr := Balloc();
        assert Traced(f, old(logged), Val(), logged, ip);
        if addr == 0 {
          return;
        }
        InBitmap(sb, addr);
        NewAddr(sb, f, owner, ip, k, addr);
        inodes := inodes[ip := Inode(inodes[ip].typ, inodes[ip].size, inodes[ip].addrs[k := addr])];
        owner := owner[addr := (ip, k)];
      }
    }

    /** The part of bmap that reads a word of the indirect block and fills it if it is empty. */
    method MapWord(ip: nat, j: nat, a: nat) returns (addr: nat)
      requires Valid() && ip < |inodes| && j < NINDIRECT && 0 != a == Ref(Val(), ip, NDIRECT)
      modifies this`store, this`inodes, this`owner, this`logged
      ensures Valid() && Grown(sb, old(Val()), Val())
      ensures SameRefsBut(old(Val()), Val(), (ip, NDIRECT + 1 + j), addr)
      ensures addr == 0 ==> FreeBlocks(sb, old(Val())) == {}
      ensures addr == 0 || old(Ref(Val(), ip, NDIRECT + 1 + j)) != 0 ==>
                Val() == old(Val()) && owner == old(owner) && logged == old(logged)
      ensures logged <= old(logged) + Bitmap(sb) + ({addr, a} - {0})
      ensures Traced(old(Val()), old(logged), Val(), logged, ip)
    {
      hide Marked, BitsOk, RefsOk, FilesOk, Ref, Grown, SameRefsBut, Bitmap, FreeBlocks, Word, PutWord, Alloc, Zeros;
      ghost var f := Val();
      AtWord(sb, f, owner, ip, j);
      addr := Word(store[a], j);
      if addr == 0 {
        addr := Balloc();
        assert Traced(f, old(logged), Val(), logged, ip);
        if addr != 0 {
          InBitmap(sb, addr);
          NewWord(sb, f, owner, ip, j, addr);
          store := store[a := PutWord(store[a], j, addr)];
          logged := logged + {a};
          owner := owner[addr := (ip, NDIRECT + 1 + j)];
        }
      }
    }

    /**
     bmap: the block of the file's bn-th kilobyte, allocated if there is none;
     0 when the disk is full.  No other reference and no file changes.
     */
    method Bmap(ip: nat, bn: nat) returns (addr: nat)
      requires Valid() && ip < |inodes| && bn < MAXFILE
      modifies this`store, this`inodes, this`owner, this`logged
      ensures Valid() && Grown(sb, old(Val()), Val())
      ensures addr == Ref(Val(), ip, Slot(bn))
      ensures addr == 0 ==> FreeBlocks(sb, Val()) == {}
      ensures old(Ref(Val(), ip, Slot(bn))) != 0 ==> Val() == old(Val()) && owner == old(owner) && logged == old(logged)
      ensures logged <= old(logged) + Bitmap(sb) + ({addr, Ref(Val(), ip, NDIRECT)} - {0})
      ensures Traced(old(Val()), old(logged), Val(), logged, ip)
    {
      hide Marked, BitsOk, RefsOk, FilesOk, Ref, FreeBlocks, Bitmap, Traced;
      ghost var f := Val();
      AtAddr(sb, f, owner, ip, NDIRECT);
      if bn < NDIRECT {
        addr := MapAddr(ip, bn);
        return;
      }
      if Ref(f, ip, NDIRECT) == 0 {
        NoIndirect(f, ip, bn + 1);
      }
      var a := MapAddr(ip, NDIRECT);
      if a == 0 {
        return 0;
      }
      ghost var g, l := Val(), logged;
      addr := MapWord(ip, bn - NDIRECT, a);
      GrownTwice(sb, f, g, Val());
      TracedTwice(f, old(logged), g, l, Val(), logged, ip);
    }

    /** One turn of writei's loop: map the block, copy into it, log it. */
    method WriteBlock(ip: nat, off: nat, d: seq<Byte>, ghost n: nat) returns (ok: bool)
      requires Valid() && ip < |inodes| && Present(Val(), ip, n) && off <= n
      requires 0 < |d| && off % BSIZE + |d| <= BSIZE && off < MAXFILE * BSIZE
      modifies this`store, this`inodes, this`owner, this`logged
      ensures Valid() && OthersSame(old(Val()), Val(), ip) && KeepsRefs(old(Val()), Val()) && AddrsOk(Val())
      ensures Present(Val(), ip, if ok then Max(n, off + |d|) else n)
      ensures old(Ref(Val(), ip, Slot(off / BSIZE))) != 0 ==> ok
      ensures ok ==> Bytes(Val(), ip, Max(n, off + |d|)) == Splice(old(Bytes(Val(), ip, n)), off, d)
      ensures !ok ==> FreeBlocks(sb, Val()) == {} && Bytes(Val(), ip, n) == old(Bytes(Val(), ip, n))
      ensures logged <= old(logged) + Bitmap(sb) + ({Ref(Val(), ip, NDIRECT), Ref(Val(), ip, Slot(off / BSIZE))} - {0})
      ensures Traced(old(Val()), old(logged), Val(), logged, ip)
    {
      hide Marked, BitsOk, RefsOk, FilesOk, Ref, Grown, Bytes, Present, Bitmap, FreeBlocks, Patch, Contents;
      ghost var f := Val();
      var addr := Bmap(ip, off / BSIZE);
      ghost var g := Val();
      GrownKeeps(sb, f, g, ip, n);
      if addr == 0 {
        return false;
      }
      WriteSplices(sb, g, owner, ip, n, off, d);
      WriteOwned(sb, g, owner, ip, off, d);
      store := store[addr := Patch(store[addr], off % BSIZE, d)];
      logged := logged + {addr};
      assert Val() == WriteAt(g, ip, off, d);
      assert Traced(f, old(logged), Val(), logged, ip);
      OthersSameTwice(f, g, Val(), ip);
      ok := true;
    }

    /** writei's last lines: grow the size if the write passed the end, and iupdate. */
    method Finish(ip: nat, pos: nat)
      requires Valid() && ip < |inodes| && Present(Val(), ip, Max(inodes[ip].size, pos))
      modifies this`inodes, this`dinodes, this`logged
      ensures Valid() && Val() == SetSize(old(Val()), ip, Max(old(inodes)[ip].size, pos))
      ensures Contents(Val(), ip) == old(Bytes(Val(), ip, Max(inodes[ip].size, pos)))
      ensures forall i :: 0 <= i < |inodes| && i != ip ==> Contents(Val(), i) == old(Contents(Val(), i))
      ensures forall i, k :: 0 <= i < |inodes| && 0 <= k < NSLOTS ==> Ref(Val(), i, k) == old(Ref(Val(), i, k))
      ensures dinodes == old(dinodes)[ip := inodes[ip]] && logged == old(logged) + {IBlock(sb, ip)}
      ensures Traced(old(Val()), old(logged), Val(), logged, ip)
    {
      hide Marked, BitsOk, RefsOk, Ref;
      ghost var f := Val();
      SizeKeeps(sb, f, owner, {}, {}, ip, Max(inodes[ip].size, pos));
      FinishBytes(f, ip, Max(inodes[ip].size, pos));
      if pos > inodes[ip].size {
        inodes := inodes[ip := Inode(inodes[ip].typ, pos, inodes[ip].addrs)];
      } else {
        assert inodes[ip := Inode(inodes[ip].typ, inodes[ip].size, inodes[ip].addrs)] == inodes;
      }
      dinodes := dinodes[ip := inodes[ip]];
      logged := logged + {IBlock(sb, ip)};
    }

    /**
     writei with a source that does not fault: on success the file holds the
     source's bytes at `off`; when the disk fills up a prefix of them.
     */
    method Writei(ip: nat, off: nat, src: seq<Byte>) returns (r: int)
      requires Valid() && ip < |inodes| && off < 0x1_0000_0000 && |src| < 0x1_0000_0000
      modifies this`store, this`inodes, this`dinodes, this`owner, this`logged
      ensures Valid() && |inodes| == |old(inodes)|
      ensures r == -1 <==> off > old(inodes)[ip].size || off + |src| > MAXFILE * BSIZE
      ensures r == -1 ==> Val() == old(Val()) && dinodes == old(dinodes) && logged == old(logged)
      ensures Traced(old(Val()), old(logged), Val(), logged, ip) && (r >= 0 ==> IBlock(sb, ip) in logged)
      ensures r >= 0 ==>
                && r <= |src| && (r < |src| ==> FreeBlocks(sb, Val()) == {} && old(inodes)[ip].size < off + |src|)
                && (r < |src| ==> old(inodes)[ip].size <= (off + r) / BSIZE * BSIZE)
                && (r < |src| && off % BSIZE + |src| <= BSIZE ==> r == 0)
                && Contents(Val(), ip) == Splice(old(Contents(Val(), ip)), off, src[..r])
                && inodes[ip].size == Max(old(inodes)[ip].size, off + r)
                && dinodes == old(dinodes)[ip := inodes[ip]]
                && logged <= old(logged) + LogBound(sb, Val(), ip, off, |src|)
      ensures r >= -1
      ensures forall i :: 0 <= i < |inodes| && i != ip ==> Contents(Val(), i) == old(Contents(Val(), i))
      ensures forall i :: 0 <= i < |inodes| ==> inodes[i].typ == old(inodes)[i].typ
    {
      hide Marked, BitsOk, RefsOk, FilesOk, Contents, Ref, Bytes, Present, Bitmap, FreeBlocks, DataBound,
           Splice, Traced;
      ghost var f, l := Val(), logged;
      TracedSame(f, l, ip);
      var n := |src|;
      if off > inodes[ip].size || (off + n) % 0x1_0000_0000 < off {
        return -1;
      }
      if off + n > MAXFILE * BSIZE {
        return -1;
      }
      var tot := WriteLoop(ip, off, src);
      ghost var g, l1 := Val(), logged;
      Finish(ip, off + tot);
      TracedTwice(f, l, g, l1, Val(), logged, ip);
      SizeShows(sb, g, owner, ip, Max(g.inodes[ip].size, off + tot), off, |src|);
      r := tot;
    }

    /** The loop of writei. */
    method WriteLoop(ip: nat, off: nat, src: seq<Byte>) returns (tot: nat)
      requires Valid() && ip < |inodes| && off <= inodes[ip].size && off + |src| <= MAXFILE * BSIZE
      modifies this`store, this`inodes, this`owner, this`logged
      ensures Valid() && OthersSame(old(Val()), Val(), ip) && tot <= |src| && AddrsOk(Val())
      ensures tot < |src| ==> FreeBlocks(sb, Val()) == {} && old(inodes)[ip].size < off + |src|
      ensures tot < |src| ==> tot == 0 || (off + tot) % BSIZE == 0
      ensures tot < |src| ==> old(inodes)[ip].size <= (off + tot) / BSIZE * BSIZE
      ensures Present(Val(), ip, Max(inodes[ip].size, off + tot))
      ensures Bytes(Val(), ip, Max(inodes[ip].size, off + tot)) == Splice(old(Contents(Val(), ip)), off, src[..tot])
      ensures logged <= old(logged) + LogBound(sb, Val(), ip, off, |src|)
      ensures Traced(old(Val()), old(logged), Val(), logged, ip)
    {
      hide Marked, BitsOk, RefsOk, FilesOk, Contents, Ref, Bytes, Present, Bitmap, FreeBlocks, DataBound, Splice,
        KeepsRefs, Traced;
      ghost var f := Val();
      ghost var c := Contents(f, ip);
      ghost var size := inodes[ip].size;
      tot := 0;
      LoopStart(sb, f, owner, ip, off);
      TracedSame(f, logged, ip);
      while tot < |src|
        invariant tot <= |src|
        invariant Valid() && OthersSame(f, Val(), ip) && AddrsOk(Val())
        invariant Present(Val(), ip, Max(size, off + tot))
        invariant Bytes(Val(), ip, Max(size, off + tot)) == Splice(c, off, src[..tot])
        invariant logged <= old(logged) + Bitmap(sb) + DataBound(Val(), ip, off, tot)
        invariant Traced(f, old(logged), Val(), logged, ip)
        invariant tot == 0 || tot == |src| || (off + tot) % BSIZE == 0
      {
        var pos := off + tot;
        MissingAfter(Val(), ip, size, pos);
        var m := if |src| - tot < BSIZE - pos % BSIZE then |src| - tot else BSIZE - pos % BSIZE;
        StepEnds(pos, m, |src| - tot);
        ghost var g, l := Val(), logged;
        var ok := WriteBlock(ip, pos, src[tot..tot + m], Max(size, pos));
        TracedTwice(f, old(logged), g, l, Val(), logged, ip);
        OthersSameTwice(f, g, Val(), ip);
        BoundStep(g, Val(), ip, off, tot, m);
        if !ok {
          BoundGrows(Val(), ip, off, tot + m, |src|);
          return;
        }
        SpliceTwice(c, off, src[..tot], src[tot..tot + m]);
        assert src[..tot] + src[tot..tot + m] == src[..tot + m];
        tot := tot + m;
      }
    }

    /**
     readi with a destination that does not fault: the bytes from off on, as
     many as asked for and present; every block is there, so nothing is allocated.
     */
    method Readi(ip: nat, off: nat, n: nat) returns (dst: seq<Byte>)
      requires Valid() && ip < |inodes| && off < 0x1_0000_0000 && n < 0x1_0000_0000
      modifies this`store, this`inodes, this`owner, this`logged
      ensures Valid() && Val() == old(Val()) && owner == old(owner) && logged == old(logged)
      ensures dst == if off > inodes[ip].size || off + n >= 0x1_0000_0000 then []
                     else Contents(Val(), ip)[off..if off + n > inodes[ip].size then inodes[ip].size else off + n]
    {
      hide Marked, BitsOk, RefsOk, FilesOk, Contents, Ref, Grown, FreeBlocks, Bitmap;
      dst := [];
      if off > inodes[ip].size || (off + n) % 0x1_0000_0000 < off {
        return;
      }
      var count := if off + n > inodes[ip].size then inodes[ip].size - off else n;
      ghost var c := Contents(Val(), ip);
      var tot := 0;
      while tot < count
        invariant Valid() && Val() == old(Val()) && owner == old(owner) && logged == old(logged)
        invariant tot <= count && off + count <= inodes[ip].size
        invariant dst == c[off..off + tot]
      {
        var pos := off + tot;
        var m := if count - tot < BSIZE - pos % BSIZE then count - tot else BSIZE - pos % BSIZE;
        BlockHolds(Val(), ip, pos, m);
        var addr := Bmap(ip, pos / BSIZE);
        dst := dst + store[addr][pos % BSIZE..pos % BSIZE + m];
        Adjacent(c, off, pos, pos + m);
        tot := tot + m;
      }
    }

    /** bfree: its panic needs a block that is already free. */
    method Bfree(b: nat)
      requires b < sb.size && BBlock(sb, b) < |store| && Marked(sb, Val(), b)
      modifies this`store, this`logged
      ensures Val() == Mark(sb, old(Val()), b, false) && logged == old(logged) + {BBlock(sb, b)}
    {
      var bp := BBlock(sb, b);
      var bi := b % BPB;
      assert BitOf(store[bp][bi / 8], bi % 8);
      store := store[bp := store[bp][bi / 8 := ByteWithBit(store[bp][bi / 8], bi % 8, false)]];
      logged := logged + {bp};
    }

    /** The first loop of itrunc. */
    method TruncDirect(ip: nat)
      requires Owned(sb, Val(), owner, {}, {}) && ip < |inodes|
      modifies this`store, this`inodes, this`owner, this`logged
      ensures Owned(sb, Val(), owner, {}, {}) && Freed(sb, old(Val()), Val(), ip)
      ensures forall k :: 0 <= k < NDIRECT ==> Ref(Val(), ip, k) == 0
      ensures owner.Keys <= old(owner.Keys) && Trimmed(sb, old(Val()), old(logged), Val(), logged, ip)
    {
      hide BitsOk, RefsOk, Ref, Marked, Trimmed;
      ghost var f, l := Val(), logged;
      TrimmedSame(sb, f, l, ip);
      FreedSelf(sb, f, owner, ip);
      var i := 0;
      while i < NDIRECT
        invariant i <= NDIRECT && ip < |inodes| == |f.inodes| && AddrsOk(Val())
        invariant Owned(sb, Val(), owner, {}, {}) && Freed(sb, f, Val(), ip)
        invariant forall k :: 0 <= k < i ==> Ref(Val(), ip, k) == 0
        invariant owner.Keys <= old(owner.Keys) && Trimmed(sb, f, l, Val(), logged, ip)
      {
        ghost var f1, l1 := Val(), logged;
        FreeDirect(ip, i, f);
        TrimmedTwice(sb, f, l, f1, l1, Val(), logged, ip);
        i := i + 1;
      }
    }

    method FreeDirect(ip: nat, i: nat, ghost f0: Fs)
      requires Owned(sb, Val(), owner, {}, {}) && ip < |inodes| && i < NDIRECT && Freed(sb, f0, Val(), ip)
      modifies this`store, this`inodes, this`owner, this`logged
      ensures Owned(sb, Val(), owner, {}, {}) && Freed(sb, f0, Val(), ip) && AddrsOk(Val())
      ensures Ref(Val(), ip, i) == 0
      ensures forall k :: 0 <= k < NSLOTS && k != i ==> Ref(Val(), ip, k) == old(Ref(Val(), ip, k))
      ensures owner.Keys <= old(owner.Keys) && Trimmed(sb, old(Val()), old(logged), Val(), logged, ip)
    {
      hide BitsOk, RefsOk, Marked, Trimmed;
      ghost var f := Val();
      TrimmedSame(sb, f, logged, ip);
      if inodes[ip].addrs[i] != 0 {
        var b := inodes[ip].addrs[i];
        DirectOwner(sb, f, owner, ip, i);
        FreeKeeps(sb, f, owner, {}, {}, b);
        TrimmedOne(sb, f, logged, b, ip, Inode(inodes[ip].typ, inodes[ip].size, inodes[ip].addrs[i := 0]));
        Bfree(b);
        owner := owner - {b};
        ghost var g := Val();
        assert {} + {(ip, i)} == {(ip, i)};
        ClearDirect(sb, g, owner, {}, ip, i);
        inodes := inodes[ip := Inode(inodes[ip].typ, inodes[ip].size, inodes[ip].addrs[i := 0])];
      }
    }

    /** One turn of itrunc's second loop: free the block named by word j of the indirect block. */
    method FreeWord(ip: nat, a: nat, j: nat, ghost f0: Fs)
      requires Owned(sb, Val(), owner, {}, Words(ip, j)) && ip < |inodes| && j < NINDIRECT && Freed(sb, f0, Val(), ip)
      requires 0 != a == Ref(Val(), ip, NDIRECT)
      modifies this`store, this`owner, this`logged
      ensures Owned(sb, Val(), owner, {}, Words(ip, j + 1)) && Freed(sb, f0, Val(), ip) && AddrsOk(Val())
      ensures forall k :: 0 <= k < NSLOTS ==> Ref(Val(), ip, k) == old(Ref(Val(), ip, k))
      ensures owner.Keys <= old(owner.Keys) && Trimmed(sb, old(Val()), old(logged), Val(), logged, ip)
    {
      hide BitsOk, RefsOk, Marked, Ref, Word, Trimmed;
      ghost var f := Val();
      TrimmedSame(sb, f, logged, ip);
      WordOwner(sb, f, owner, ip, j);
      var b := Word(store[a], j);
      if b != 0 {
        FreeKeeps(sb, f, owner, {}, Words(ip, j), b);
        TrimmedOne(sb, f, logged, b, ip, inodes[ip]);
        assert inodes[ip := inodes[ip]] == inodes;
        Bfree(b);
        owner := owner - {b};
      } else {
        DeadMore(f, owner, Words(ip, j), (ip, NDIRECT + 1 + j));
      }
      assert Words(ip, j + 1) == Words(ip, j) + {(ip, NDIRECT + 1 + j)};
    }

    /** The indirect half of itrunc. */
    method TruncIndirect(ip: nat)
      requires Owned(sb, Val(), owner, {}, {}) && ip < |inodes|
      modifies this`store, this`inodes, this`owner, this`logged
      ensures Owned(sb, Val(), owner, {}, {}) && Freed(sb, old(Val()), Val(), ip) && AddrsOk(Val())
      ensures forall k :: 0 <= k < NSLOTS ==> Ref(Val(), ip, k) == if k < NDIRECT then old(Ref(Val(), ip, k)) else 0
      ensures owner.Keys <= old(owner.Keys) && Trimmed(sb, old(Val()), old(logged), Val(), logged, ip)
    {
      hide BitsOk, RefsOk, Marked, Ref, Trimmed;
      ghost var f, l := Val(), logged;
      TrimmedSame(sb, f, l, ip);
      FreedSelf(sb, f, owner, ip);
      AtAddr(sb, f, owner, ip, NDIRECT);
      var a := inodes[ip].addrs[NDIRECT];
      if a == 0 {
        forall k | NDIRECT < k < NSLOTS ensures Ref(f, ip, k) == 0 {
          NoIndirect(f, ip, k);
        }
        return;
      }
      assert Words(ip, 0) == {};
      var j := 0;
      while j < NINDIRECT
        invariant j <= NINDIRECT && inodes == f.inodes && AddrsOk(Val())
        invariant Owned(sb, Val(), owner, {}, Words(ip, j)) && Freed(sb, f, Val(), ip)
        invariant forall k :: 0 <= k < NSLOTS ==> Ref(Val(), ip, k) == Ref(f, ip, k)
        invariant owner.Keys <= old(owner.Keys) && Trimmed(sb, f, l, Val(), logged, ip)
        modifies this`store, this`owner, this`logged
      {
        ghost var f1, l1 := Val(), logged;
        FreeWord(ip, a, j, f);
        TrimmedTwice(sb, f, l, f1, l1, Val(), logged, ip);
        j := j + 1;
      }
      ghost var g := Val();
      IndirectOwner(sb, g, owner, ip);
      FreeIndirect(sb, g, owner, {}, ip);
      TrimmedOne(sb, g, logged, a, ip, Inode(inodes[ip].typ, inodes[ip].size, inodes[ip].addrs[NDIRECT := 0]));
      ghost var l1 := logged;
      Bfree(a);
      owner := owner - {a};
      inodes := inodes[ip := Inode(inodes[ip].typ, inodes[ip].size, inodes[ip].addrs[NDIRECT := 0])];
      assert Freed(sb, g, Val(), ip);
      FreedTwice(sb, f, g, Val(), ip);
      TrimmedTwice(sb, f, l, g, l1, Val(), logged, ip);
    }

    /** itrunc: the file becomes empty, exactly its blocks become free, and "freeing free block" is not reached. */
    method Itrunc(ip: nat)
      requires Valid() && ip < |inodes|
      modifies this`store, this`inodes, this`dinodes, this`owner, this`logged
      ensures Valid() && |inodes| == |old(inodes)| && Contents(Val(), ip) == []
      ensures forall i :: 0 <= i < |inodes| && i != ip ==> Contents(Val(), i) == old(Contents(Val(), i))
      ensures FreeBlocks(sb, Val()) == old(FreeBlocks(sb, Val()) + OwnedBy(owner, ip)) && OwnedBy(owner, ip) == {}
      ensures dinodes == old(dinodes)[ip := inodes[ip]]
      ensures forall i :: 0 <= i < |inodes| ==> inodes[i].typ == old(inodes)[i].typ
      ensures Traced(old(Val()), old(logged), Val(), logged, ip)
      ensures IBlock(sb, ip) in logged && logged <= old(logged) + Bitmap(sb) + {IBlock(sb, ip)}
    {
      hide BitsOk, RefsOk, Marked, Ref, FilesOk, Contents, FreeBlocks, OwnedBy, Trimmed, Bitmap;
      ghost var f, l := Val(), logged;
      TruncDirect(ip);
      ghost var g, l1 := Val(), logged;
      TruncIndirect(ip);
      ghost var h := Val();
      TrimmedTwice(sb, f, l, g, l1, h, logged, ip);
      TrimmedDone(sb, f, l, h, logged, ip);
      FreedTwice(sb, f, g, h, ip);
      FreedContents(sb, f, h, old(owner), ip);
      SizeKeeps(sb, h, owner, {}, {}, ip, 0);
      inodes := inodes[ip := Inode(inodes[ip].typ, 0, inodes[ip].addrs)];
      FreedBlocks(sb, f, Val(), old(owner), owner, ip);
      dinodes := dinodes[ip := inodes[ip]];
      logged := logged + {IBlock(sb, ip)};
    }

    /** What writei has written, readi reads back. */
    method WriteThenRead(ip: nat, off: nat, src: seq<Byte>) returns (r: int, dst: seq<Byte>)
      requires Valid() && ip < |inodes| && off < 0x1_0000_0000 && |src| < 0x1_0000_0000
      modifies this`store, this`inodes, this`dinodes, this`owner, this`logged
      ensures Valid() && |inodes| == |old(inodes)| && r <= |src| && (r >= 0 ==> dst == src[..r])
      ensures r == -1 <==> off > old(inodes)[ip].size || off + |src| > MAXFILE * BSIZE
      ensures r >= 0 ==> Contents(Val(), ip) == Splice(old(Contents(Val(), ip)), off, src[..r])
    {
      hide Marked, BitsOk, RefsOk, FilesOk, Contents, Ref, Present, Bitmap, FreeBlocks, LogBound, Splice;
      ghost var c := Contents(Val(), ip);
      SizeOf(ip);
      dst := [];
      r := Writei(ip, off, src);
      if r >= 0 {
        SizeOf(ip);
        ReadAfterWrite(c, off, src[..r]);
        dst := Readi(ip, off, r);
      }
    }

    lemma {:induction false} SizeOf(ip: nat)
      requires Valid() && ip < |inodes|
      ensures |Contents(Val(), ip)| == inodes[ip].size
    {
      hide Marked, BitsOk, RefsOk, Ref;
    }

    /** The inner loop of count_free_blocks, over one block of the bitmap. */
    method CountInBlock(base: nat, n0: nat) returns (n: nat)
      requires Valid() && base % BPB == 0 && base < sb.size && n0 == |FreeBelow(sb, Val(), base)|
      ensures n == |FreeBelow(sb, Val(), base + BPB)|
    {
      hide BitsOk, RefsOk, FilesOk, Marked, FreeBelow, FreeBlocks;
      BitAt(sb, Val(), owner, base, 0);
      var bitmap := store[BBlock(sb, base)];
      var bi := 0;
      n := n0;
      while bi < BPB && base + bi < sb.size
        invariant bi <= BPB && base + bi <= sb.size
        invariant n == |FreeBelow(sb, Val(), base + bi)|
      {
        BitAt(sb, Val(), owner, base, bi);
        FreeBelowMore(sb, Val(), base + bi);
        if !BitOf(bitmap[bi / 8], bi % 8) {
          n := n + 1;
        }
        bi := bi + 1;
      }
      FreeBelowEnds(sb, Val(), owner, base + bi);
      FreeBelowEnds(sb, Val(), owner, base + BPB);
    }

    /** count_free_blocks. */
    method CountFreeBlocks() returns (n: nat)
      requires Valid()
      ensures n == |FreeBlocks(sb, Val())|
    {
      hide BitsOk, RefsOk, FilesOk, Marked, FreeBelow, FreeBlocks;
      n := 0;
      var base := 0;
      FreeBelowEnds(sb, Val(), owner, 0);
      while base < sb.size
        invariant base % BPB == 0
        invariant n == |FreeBelow(sb, Val(), base)|
      {
        n := CountInBlock(base, n);
        base := base + BPB;
      }
      FreeBelowEnds(sb, Val(), owner, base);
    }

    /**
     The inode branch of filewrite: transactions of at most three blocks.  When
     it returns n the file is what one write of all n bytes would make it;
     otherwise a prefix was written and the offset says how much.
     `peak` is the most blocks any one of its transactions logged.
     */
    method Filewrite(ip: nat, off: nat, src: seq<Byte>) returns (ret: int, newoff: nat, ghost peak: nat)
      requires Valid() && ip < |inodes| && off < 0x1_0000_0000 && |src| < 0x8000_0000
      modifies this`store, this`inodes, this`dinodes, this`owner, this`logged
      ensures Valid() && |inodes| == |old(inodes)|
      ensures (ret == |src| && newoff == off + |src|) || (ret == -1 && off <= newoff < off + |src|)
      ensures off <= old(inodes)[ip].size ==>
                Contents(Val(), ip) == Splice(old(Contents(Val(), ip)), off, src[..newoff - off])
      ensures off > old(inodes)[ip].size && src != [] ==> ret == -1 && Val() == old(Val())
      ensures off + |src| > MAXFILE * BSIZE && src != [] ==> ret == -1
      ensures ret == -1 ==>
                off > old(inodes)[ip].size || off + |src| > MAXFILE * BSIZE || FreeBlocks(sb, Val()) == {}
      ensures forall i :: 0 <= i < |inodes| && i != ip ==> Contents(Val(), i) == old(Contents(Val(), i))
      ensures sb.size <= BPB ==> peak <= 7
    {
      hide BitsOk, RefsOk, Marked, Ref, FilesOk, Contents, FreeBlocks, LogBound, Splice;
      ghost var f := Val();
      ghost var c := Contents(f, ip);
      var max := (10 - 1 - 1 - 2) / 2 * BSIZE;
      var i := 0;
      newoff, peak := off, 0;
      if off <= inodes[ip].size {
        SpliceNothing(c, off);
      }
      while i < |src|
        invariant i <= |src| && newoff == off + i < 0x1_0000_0000 && |inodes| == |f.inodes|
        invariant Valid()
        invariant off <= f.inodes[ip].size ==> Contents(Val(), ip) == Splice(c, off, src[..i])
        invariant i == 0 ==> Val() == f
        invariant i > 0 ==> off <= f.inodes[ip].size && newoff <= inodes[ip].size && newoff <= MAXFILE * BSIZE
        invariant forall x :: 0 <= x < |inodes| && x != ip ==> Contents(Val(), x) == Contents(f, x)
        invariant sb.size <= BPB ==> peak <= 7
      {
        var n1 := if |src| - i > max then max else |src| - i;
        logged := {};
        ghost var g := Val();
        var r := Writei(ip, newoff, src[i..i + n1]);
        if r >= 0 {
          LogsSeven(sb, Val(), owner, ip, newoff, n1, logged);
          if off <= f.inodes[ip].size {
            ChunkSplices(c, off, src, i, n1, r);
          }
          peak := Max(peak, |logged|);
        }
        if r > 0 {
          newoff := newoff + r;
        }
        if r != n1 {
          return -1, newoff, peak;
        }
        i := i + r;
      }
      ret := |src|;
    }
  }

  ghost function FreeBelow(sb: Superblock, f: Fs, n: nat): (s: set<nat>) {
    set b: nat | b < n && b < sb.size && BBlock(sb, b) < |f.store| && !Marked(sb, f, b)
  }

  lemma {:induction false} FreeBelowEnds(sb: Superblock, f: Fs, owner: Owners, n: nat)
    requires Owned(sb, f, owner, {}, {})
    ensures LayoutOk(sb, f)
    ensures n == 0 ==> FreeBelow(sb, f, n) == {}
    ensures n >= sb.size ==> FreeBelow(sb, f, n) == FreeBlocks(sb, f)
  {
    hide Marked, RefsOk;
  }

  /** The bit that the scans of balloc and count_free_blocks look at is the block's. */
  lemma {:induction false} BitAt(sb: Superblock, f: Fs, owner: Owners, base: nat, bi: nat)
    requires Owned(sb, f, owner, {}, {}) && base % BPB == 0 && bi < BPB && base + bi < sb.size
    ensures BBlock(sb, base + bi) == BBlock(sb, base) < |f.store|
    ensures BitOf(f.store[BBlock(sb, base)][bi / 8], bi % 8) == Marked(sb, f, base + bi)
  {
    assert (base + bi) % BPB == bi;
  }

  lemma {:induction false} FreeBelowMore(sb: Superblock, f: Fs, n: nat)
    requires n < sb.size && BBlock(sb, n) < |f.store|
    ensures |FreeBelow(sb, f, n + 1)| == |FreeBelow(sb, f, n)| + (if Marked(sb, f, n) then 0 else 1)
  {
    assert FreeBelow(sb, f, n + 1) == FreeBelow(sb, f, n) + (if Marked(sb, f, n) then {} else {n});
  }

  lemma {:induction false} LogsSeven(sb: Superblock, f: Fs, owner: Owners, i: nat, off: nat, n: nat, logged: set<nat>)
    requires Owned(sb, f, owner, {}, {}) && i < |f.inodes| && n <= 3 * BSIZE
    requires logged <= {} + LogBound(sb, f, i, off, n)
    ensures sb.size <= BPB ==> |logged| <= 7
  {
    if sb.size <= BPB {
      ChunkLogsSeven(sb, f, i, off, n);
      Sequences.SubsetCount(logged, LogBound(sb, f, i, off, n));
    }
  }

  lemma {:induction false} ChunkSplices(c: seq<Byte>, off: nat, src: seq<Byte>, i: nat, n1: nat, r: nat)
    requires off <= |c| && r <= n1 && i + n1 <= |src|
    ensures off + i <= |Splice(c, off, src[..i])|
    ensures Splice(Splice(c, off, src[..i]), off + i, src[i..i + n1][..r]) == Splice(c, off, src[..i + r])
  {
    SpliceTwice(c, off, src[..i], src[i..i + n1][..r]);
    assert src[..i] + src[i..i + n1][..r] == src[..i + r];
  }

  lemma {:induction false} WordOwner(sb: Superblock, f: Fs, owner: Owners, i: nat, j: nat)
    requires Owned(sb, f, owner, {}, Words(i, j)) && i < |f.inodes| && j < NINDIRECT && Ref(f, i, NDIRECT) != 0
    ensures AddrsOk(f) && Ref(f, i, NDIRECT) < |f.store|
    ensures Word(f.store[Ref(f, i, NDIRECT)], j) == Ref(f, i, NDIRECT + 1 + j)
    ensures var b := Ref(f, i, NDIRECT + 1 + j);
            b != 0 ==>
              && b in owner && owner[b] == (i, NDIRECT + 1 + j) && b < sb.size
              && BBlock(sb, b) < |f.store| && Marked(sb, f, b)
  {
    assert (i, NDIRECT + 1 + j) !in Words(i, j) && (i, NDIRECT) !in Words(i, j);
  }

  lemma {:induction false} IndirectOwner(sb: Superblock, f: Fs, owner: Owners, i: nat)
    requires Owned(sb, f, owner, {}, Words(i, NINDIRECT)) && i < |f.inodes| && Ref(f, i, NDIRECT) != 0
    ensures AddrsOk(f) && Ref(f, i, NDIRECT) in owner
    ensures var a := Ref(f, i, NDIRECT); a < sb.size && BBlock(sb, a) < |f.store| && Marked(sb, f, a)
    ensures Freed(sb, f, SetAddr(Mark(sb, f, Ref(f, i, NDIRECT), false), i, NDIRECT, 0), i)
  {
    var a := Ref(f, i, NDIRECT);
    assert (i, NDIRECT) !in Words(i, NINDIRECT);
    FreeIndirect(sb, f, owner, {}, i);
    hide Marked;
  }

  /** A slot that refers to nothing may as well be dead. */
  lemma {:induction false} DeadMore(f: Fs, owner: Owners, dead: set<(nat, nat)>, s: (nat, nat))
    requires RefsOk(f, owner, dead) && SlotOk(f, s) && Ref(f, s.0, s.1) == 0
    ensures RefsOk(f, owner, dead + {s})
  {
  }

  /** What truncation frees is what the inode owned. */
  lemma {:induction false} FreedBlocks(sb: Superblock, f: Fs, f': Fs, owner: Owners, owner': Owners, ip: nat)
    requires Owned(sb, f, owner, {}, {}) && Owned(sb, f', owner', {}, {}) && ip < |f.inodes| == |f'.inodes|
    requires forall i, k :: 0 <= i < |f.inodes| && 0 <= k < NSLOTS ==>
               Ref(f', i, k) == if i == ip then 0 else Ref(f, i, k)
    ensures LayoutOk(sb, f) && LayoutOk(sb, f')
    ensures FreeBlocks(sb, f') == FreeBlocks(sb, f) + OwnedBy(owner, ip) && OwnedBy(owner', ip) == {}
  {
    forall b | b in owner' ensures b in owner && owner[b].0 != ip {
      assert Ref(f', owner'[b].0, owner'[b].1) == b;
    }
    forall b | b in owner && owner[b].0 != ip ensures b in owner' {
      assert Ref(f', owner[b].0, owner[b].1) == b;
    }
  }

  lemma {:induction false} FreedSelf(sb: Superblock, f: Fs, owner: Owners, ip: nat)
    requires Owned(sb, f, owner, {}, {}) && ip < |f.inodes|
    ensures AddrsOk(f) && Freed(sb, f, f, ip)
  {
  }

  lemma {:induction false} DirectOwner(sb: Superblock, f: Fs, owner: Owners, i: nat, k: nat)
    requires Owned(sb, f, owner, {}, {}) && i < |f.inodes| && k < NSLOTS && Ref(f, i, k) != 0
    ensures Ref(f, i, k) in owner && owner[Ref(f, i, k)] == (i, k)
    ensures Ref(f, i, k) < sb.size == |f.store| && BBlock(sb, Ref(f, i, k)) < sb.nmeta <= sb.size
    ensures Marked(sb, f, Ref(f, i, k))
  {
  }

  lemma {:induction false} BlockPresent(f: Fs, i: nat, n: nat, p: nat)
    requires Present(f, i, n) && p < n
    ensures Ref(f, i, Slot(p / BSIZE)) != 0
  {
    assert p / BSIZE * BSIZE < n;
  }

  /** A block that is missing lies behind the end of the file. */
  lemma {:induction false} MissingAfter(f: Fs, i: nat, size: nat, pos: nat)
    requires Present(f, i, Max(size, pos)) && pos < MAXFILE * BSIZE
    ensures Ref(f, i, Slot(pos / BSIZE)) == 0 ==> size <= pos / BSIZE * BSIZE <= pos
  {
    hide Present, Ref;
    if pos / BSIZE * BSIZE < size {
      BlockPresent(f, i, Max(size, pos), pos / BSIZE * BSIZE);
    }
  }

  /** A step up to the end of a block, or to the end of what there is to write. */
  lemma {:induction false} StepEnds(pos: nat, m: nat, left: nat)
    requires 0 < left && m == if left < BSIZE - pos % BSIZE then left else BSIZE - pos % BSIZE
    ensures 0 < m <= left && pos % BSIZE + m <= BSIZE && (m < left ==> (pos + m) % BSIZE == 0)
  {
  }

  lemma {:induction false} LoopStart(sb: Superblock, f: Fs, owner: Owners, ip: nat, off: nat)
    requires Owned(sb, f, owner, {}, {}) && FilesOk(f) && ip < |f.inodes| && off <= f.inodes[ip].size
    ensures AddrsOk(f) && OthersSame(f, f, ip) && Present(f, ip, f.inodes[ip].size)
    ensures Bytes(f, ip, f.inodes[ip].size) == Contents(f, ip) == Splice(Contents(f, ip), off, [])
  {
    hide BitsOk, Marked;
    SpliceNothing(Contents(f, ip), off);
  }

  /** An inode's size is not seen by the bitmap or the bound on logged blocks. */
  lemma {:induction false} SizeShows(sb: Superblock, f: Fs, owner: Owners, i: nat, size: nat, off: nat, n: nat)
    requires Owned(sb, f, owner, {}, {}) && i < |f.inodes|
    ensures LayoutOk(sb, f) && LayoutOk(sb, SetSize(f, i, size))
    ensures FreeBlocks(sb, SetSize(f, i, size)) == FreeBlocks(sb, f)
    ensures DataBound(SetSize(f, i, size), i, off, n) == DataBound(f, i, off, n)
  {
    var f' := SetSize(f, i, size);
    forall b: nat | b < sb.size && BBlock(sb, b) < |f.store| ensures Marked(sb, f', b) == Marked(sb, f, b) {
    }
    forall k | 0 <= k < NSLOTS ensures Ref(f', i, k) == Ref(f, i, k) {
    }
    hide Ref, Marked, BitsOk, RefsOk;
  }

  lemma {:induction false} FinishBytes(f: Fs, ip: nat, size: nat)
    requires FilesOk(f) && ip < |f.inodes| && Present(f, ip, size)
    ensures FilesOk(SetSize(f, ip, size)) && Contents(SetSize(f, ip, size), ip) == Bytes(f, ip, size)
    ensures forall i :: 0 <= i < |f.inodes| && i != ip ==> Contents(SetSize(f, ip, size), i) == Contents(f, i)
  {
    var f' := SetSize(f, ip, size);
    forall i | 0 <= i < |f.inodes|
      ensures Present(f', i, f'.inodes[i].size)
      ensures Bytes(f', i, f'.inodes[i].size) == Bytes(f, i, if i == ip then size else f.inodes[i].size)
    {
      BytesKept(f, f', i, if i == ip then size else f.inodes[i].size);
    }
  }
}
