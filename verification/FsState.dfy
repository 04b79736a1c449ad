/**
 The on-disk file system of kernel/fs.c above the log: blocks of bytes, a free
 bitmap, and inodes whose blocks are named by direct slots, an indirect slot and
 the words of the indirect block.
 */
module FsState {

  const BSIZE: nat := 1024
  const BPB: nat := 8192        // bitmap bits per block
  const NDIRECT: nat := 12
  const NINDIRECT: nat := 256
  const MAXFILE: nat := NDIRECT + NINDIRECT
  const NSLOTS: nat := NDIRECT + 1 + NINDIRECT

  type Byte = x: nat | x < 256
  type ByteBlock = b: seq<Byte> | |b| == BSIZE witness seq(BSIZE, i => 0)

  function Zeros(): (b: ByteBlock) {
    seq(BSIZE, i => 0)
  }

  /** `nmeta` blocks (boot, super, log, inodes, bitmap) come before the data blocks. */
  datatype Superblock = Superblock(size: nat, bmapstart: nat, inodestart: nat, nmeta: nat)
  datatype Inode = Inode(typ: nat, size: nat, addrs: seq<nat>)
  datatype Fs = Fs(store: seq<ByteBlock>, inodes: seq<Inode>)

  // ----- bits and words -----------------------------------------------------------

  function Pow2(n: nat): (m: nat) {
    if n == 0 then 1 else 2 * Pow2(n - 1)
  }

  /** x & (1 << k), as a truth value. */
  predicate BitOf(x: nat, k: nat) {
    if k == 0 then x % 2 == 1 else BitOf(x / 2, k - 1)
  }

  /** x | (1 << k), or x & ~(1 << k), of a number of n bits. */
  function WithBit(x: nat, k: nat, on: bool, ghost n: nat): (y: nat)
    requires k < n && x < Pow2(n)
    ensures y < Pow2(n)
    decreases k
  {
    if k == 0 then x / 2 * 2 + (if on then 1 else 0)
    else x % 2 + 2 * WithBit(x / 2, k - 1, on, n - 1)
  }

  lemma {:induction false} WithBitAt(x: nat, k: nat, on: bool, n: nat, j: nat)
    requires k < n && x < Pow2(n)
    ensures BitOf(WithBit(x, k, on, n), j) == if j == k then on else BitOf(x, j)
    decreases k
  {
    if k > 0 && j > 0 {
      WithBitAt(x / 2, k - 1, on, n - 1, j - 1);
    }
  }

  function ByteWithBit(x: Byte, k: nat, on: bool): (y: Byte)
    requires k < 8
  {
    assert Pow2(8) == 256 by { assert Pow2(4) == 16; }
    WithBit(x, k, on, 8)
  }

  lemma {:induction false} ByteWithBitAt(x: Byte, k: nat, on: bool, j: nat)
    requires k < 8
    ensures BitOf(ByteWithBit(x, k, on), j) == if j == k then on else BitOf(x, j)
  {
    assert Pow2(8) == 256 by { assert Pow2(4) == 16; }
    WithBitAt(x, k, on, 8, j);
  }

  /** The i-th 32-bit word of a block, least significant byte first. */
  function Word(b: ByteBlock, i: nat): (v: nat)
    requires i < NINDIRECT
  {
    Num(b[4 * i]) + 0x100 * Num(b[4 * i + 1]) + 0x1_0000 * Num(b[4 * i + 2]) + 0x100_0000 * Num(b[4 * i + 3])
  }

  function Num(x: Byte): (n: nat) {
    x
  }

  function PutWord(b: ByteBlock, i: nat, v: nat): (c: ByteBlock)
    requires i < NINDIRECT && v < 0x1_0000_0000
  {
    b[4 * i := v % 0x100][4 * i + 1 := v / 0x100 % 0x100]
     [4 * i + 2 := v / 0x100 / 0x100 % 0x100][4 * i + 3 := v / 0x100 / 0x100 / 0x100]
  }

  lemma {:induction false} PutWordAt(b: ByteBlock, i: nat, v: nat, j: nat)
    requires i < NINDIRECT && j < NINDIRECT && v < 0x1_0000_0000
    ensures Word(PutWord(b, i, v), j) == if j == i then v else Word(b, j)
  {
    var c := PutWord(b, i, v);
    if j == i {
      assert c[4 * i] == v % 0x100 && c[4 * i + 1] == v / 0x100 % 0x100;
      assert c[4 * i + 2] == v / 0x100 / 0x100 % 0x100 && c[4 * i + 3] == v / 0x100 / 0x100 / 0x100;
    } else {
      assert c[4 * j] == b[4 * j] && c[4 * j + 1] == b[4 * j + 1];
      assert c[4 * j + 2] == b[4 * j + 2] && c[4 * j + 3] == b[4 * j + 3];
    }
  }

  // ----- the free bitmap ------------------------------------------------------------

  ghost predicate LayoutOk(sb: Superblock, f: Fs) {
    && 0 < sb.size < 0x1_0000_0000 && |f.store| == sb.size
    && sb.bmapstart + (sb.size - 1) / BPB < sb.nmeta <= sb.size
    && AddrsOk(f)
  }

  /** BBLOCK */
  function BBlock(sb: Superblock, b: nat): (n: nat) {
    b / BPB + sb.bmapstart
  }

  predicate Marked(sb: Superblock, f: Fs, b: nat)
    requires BBlock(sb, b) < |f.store|
  {
    BitOf(f.store[BBlock(sb, b)][b % BPB / 8], b % BPB % 8)
  }

  function Mark(sb: Superblock, f: Fs, b: nat, on: bool): (f': Fs)
    requires BBlock(sb, b) < |f.store|
  {
    var blk := f.store[BBlock(sb, b)];
    Fs(f.store[BBlock(sb, b) := blk[b % BPB / 8 := ByteWithBit(blk[b % BPB / 8], b % BPB % 8, on)]], f.inodes)
  }

  lemma {:induction false} BBlockOk(sb: Superblock, f: Fs, b: nat)
    requires LayoutOk(sb, f) && b < sb.size
    ensures BBlock(sb, b) < sb.nmeta
  {
    assert b / BPB <= (sb.size - 1) / BPB;
  }

  lemma {:induction false} MarkAt(sb: Superblock, f: Fs, b: nat, on: bool, c: nat)
    requires LayoutOk(sb, f) && b < sb.size && c < sb.size
    ensures BBlock(sb, b) < |f.store| && BBlock(sb, c) < |f.store|
    ensures Marked(sb, Mark(sb, f, b, on), c) == if c == b then on else Marked(sb, f, c)
  {
    BBlockOk(sb, f, b);
    BBlockOk(sb, f, c);
    ByteWithBitAt(f.store[BBlock(sb, b)][b % BPB / 8], b % BPB % 8, on, c % BPB % 8);
  }

  // ----- who owns which block -------------------------------------------------------

  /** The k-th block reference of inode i: 12 direct, 1 indirect, 256 inside the indirect block. */
  function Ref(f: Fs, i: nat, k: nat): (b: nat)
    requires i < |f.inodes| && k < NSLOTS && |f.inodes[i].addrs| == NDIRECT + 1
  {
    var addrs := f.inodes[i].addrs;
    if k <= NDIRECT then addrs[k]
    else if addrs[NDIRECT] == 0 || addrs[NDIRECT] >= |f.store| then 0
    else Word(f.store[addrs[NDIRECT]], k - NDIRECT - 1)
  }

  type Owners = map<nat, (nat, nat)>

  /** The bitmap marks exactly the metadata, the owned blocks and those in `pend` (allocated, not yet linked). */
  ghost predicate BitsOk(sb: Superblock, f: Fs, owner: Owners, pend: set<nat>) {
    && LayoutOk(sb, f)
    && (forall b :: 0 <= b < sb.size ==> BBlock(sb, b) < sb.nmeta)
    && (forall b :: 0 <= b < sb.size ==> (Marked(sb, f, b) <==> b < sb.nmeta || b in owner || b in pend))
    && (forall b :: b in owner ==> sb.nmeta <= b < sb.size && b !in pend)
    && (forall b :: b in pend ==> sb.nmeta <= b < sb.size)
  }

  /**
   `owner` inverts Ref, so no block is referenced twice.  Slots in `dead` still
   hold a number but no longer own it.
   */
  ghost predicate RefsOk(f: Fs, owner: Owners, dead: set<(nat, nat)>) {
    && AddrsOk(f) && 0 !in owner
    && (forall b :: b in owner ==> SlotOk(f, owner[b]) && owner[b] !in dead && Ref(f, owner[b].0, owner[b].1) == b)
    && (forall i, k :: 0 <= i < |f.inodes| && 0 <= k < NSLOTS && (i, k) !in dead && Ref(f, i, k) != 0 ==>
          Ref(f, i, k) in owner && owner[Ref(f, i, k)] == (i, k))
  }

  ghost predicate Owned(sb: Superblock, f: Fs, owner: Owners, pend: set<nat>, dead: set<(nat, nat)>) {
    BitsOk(sb, f, owner, pend) && RefsOk(f, owner, dead) && forall i :: (i, NDIRECT) !in dead
  }

  ghost predicate AddrsOk(f: Fs) {
    forall i :: 0 <= i < |f.inodes| ==> |f.inodes[i].addrs| == NDIRECT + 1
  }

  predicate SlotOk(f: Fs, s: (nat, nat)) {
    s.0 < |f.inodes| && s.1 < NSLOTS
  }

  /** Changing blocks that are nobody's indirect block changes no reference. */
  lemma {:induction false} RefsKept(f: Fs, f': Fs, owner: Owners, dead: set<(nat, nat)>)
    requires RefsOk(f, owner, dead) && (forall i :: (i, NDIRECT) !in dead)
    requires f'.inodes == f.inodes && |f'.store| == |f.store|
    requires forall b :: b in owner && b < |f.store| && owner[b].1 == NDIRECT ==> f'.store[b] == f.store[b]
    ensures RefsOk(f', owner, dead)
    ensures forall i, k :: 0 <= i < |f.inodes| && 0 <= k < NSLOTS ==> Ref(f', i, k) == Ref(f, i, k)
  {
    forall i, k | 0 <= i < |f.inodes| && 0 <= k < NSLOTS ensures Ref(f', i, k) == Ref(f, i, k) {
      assert Ref(f, i, NDIRECT) == f.inodes[i].addrs[NDIRECT];
    }
  }

  /** balloc's effect on a free block: marked and zeroed. */
  function Alloc(sb: Superblock, f: Fs, b: nat): (f': Fs)
    requires BBlock(sb, b) < |f.store| && b < |f.store|
  {
    Fs(Mark(sb, f, b, true).store[b := Zeros()], f.inodes)
  }

  lemma {:induction false} AllocBits(sb: Superblock, f: Fs, owner: Owners, pend: set<nat>, b: nat)
    requires BitsOk(sb, f, owner, pend) && b < sb.size && !Marked(sb, f, b)
    ensures BitsOk(sb, Alloc(sb, f, b), owner, pend + {b})
  {
    var f' := Alloc(sb, f, b);
    forall c | 0 <= c < sb.size ensures Marked(sb, f', c) == (c == b || Marked(sb, f, c)) {
      MarkAt(sb, f, b, true, c);
      assert Mark(sb, f, b, true).store[BBlock(sb, c)] == f'.store[BBlock(sb, c)];
    }
  }

  /** A block balloc returns was nobody's, and only it becomes pending. */
  lemma {:induction false} AllocKeeps(sb: Superblock, f: Fs, owner: Owners, pend: set<nat>, b: nat)
    requires Owned(sb, f, owner, pend, {}) && b < sb.size && !Marked(sb, f, b)
    ensures Owned(sb, Alloc(sb, f, b), owner, pend + {b}, {})
    ensures b != 0 && sb.nmeta <= b && b !in owner && b !in pend && BBlock(sb, b) < |f.store|
    ensures |Alloc(sb, f, b).store| == |f.store| == sb.size < 0x1_0000_0000
    ensures Alloc(sb, f, b).store[b] == Zeros()
    ensures forall c :: 0 <= c < sb.size && c != b && sb.nmeta <= c ==> Alloc(sb, f, b).store[c] == f.store[c]
    ensures forall i, k :: 0 <= i < |f.inodes| && 0 <= k < NSLOTS ==> Ref(Alloc(sb, f, b), i, k) == Ref(f, i, k)
  {
    AllocBits(sb, f, owner, pend, b);
    assert BBlock(sb, b) < sb.nmeta;
    hide Marked, RefsOk;
    RefsKept(f, Alloc(sb, f, b), owner, {});
  }

  /** bfree's effect on an owned block whose slot dies with it. */
  lemma {:induction false} FreeBits(sb: Superblock, f: Fs, owner: Owners, pend: set<nat>, b: nat)
    requires BitsOk(sb, f, owner, pend) && b in owner
    ensures BitsOk(sb, Mark(sb, f, b, false), owner - {b}, pend)
  {
    forall c | 0 <= c < sb.size
      ensures Marked(sb, Mark(sb, f, b, false), c) == (c != b && Marked(sb, f, c))
    {
      MarkAt(sb, f, b, false, c);
    }
  }

  lemma {:induction false} FreeKeeps(sb: Superblock, f: Fs, owner: Owners, pend: set<nat>, dead: set<(nat, nat)>,
                                     b: nat)
    requires Owned(sb, f, owner, pend, dead) && b in owner && owner[b].1 != NDIRECT
    ensures Marked(sb, f, b)
    ensures Owned(sb, Mark(sb, f, b, false), owner - {b}, pend, dead + {owner[b]})
    ensures forall c :: sb.nmeta <= c < sb.size ==> Mark(sb, f, b, false).store[c] == f.store[c]
    ensures forall i, k :: 0 <= i < |f.inodes| && 0 <= k < NSLOTS ==> Ref(Mark(sb, f, b, false), i, k) == Ref(f, i, k)
  {
    FreeBits(sb, f, owner, pend, b);
    assert BBlock(sb, b) < sb.nmeta;
    hide Marked;
    RefsKept(f, Mark(sb, f, b, false), owner, dead);
    DropOwner(Mark(sb, f, b, false), owner, dead, b);
    hide RefsOk, Ref;
  }

  lemma {:induction false} DropOwner(f: Fs, owner: Owners, dead: set<(nat, nat)>, b: nat)
    requires RefsOk(f, owner, dead) && b in owner
    ensures RefsOk(f, owner - {b}, dead + {owner[b]})
  {
  }

  // ----- linking and clearing slots -------------------------------------------------

  function SetAddr(f: Fs, i: nat, k: nat, b: nat): (f': Fs)
    requires i < |f.inodes| && k < |f.inodes[i].addrs|
  {
    Fs(f.store, f.inodes[i := Inode(f.inodes[i].typ, f.inodes[i].size, f.inodes[i].addrs[k := b])])
  }

  function SetSize(f: Fs, i: nat, size: nat): (f': Fs)
    requires i < |f.inodes|
  {
    Fs(f.store, f.inodes[i := Inode(f.inodes[i].typ, size, f.inodes[i].addrs)])
  }

  function SetWord(f: Fs, a: nat, j: nat, b: nat): (f': Fs)
    requires a < |f.store| && j < NINDIRECT && b < 0x1_0000_0000
  {
    Fs(f.store[a := PutWord(f.store[a], j, b)], f.inodes)
  }

  function SetBlock(f: Fs, b: nat, v: ByteBlock): (f': Fs)
    requires b < |f.store|
  {
    Fs(f.store[b := v], f.inodes)
  }

  /** f' refers to `b` in slot s and otherwise to what f refers to. */
  ghost predicate SameRefsBut(f: Fs, f': Fs, s: (nat, nat), b: nat) {
    && AddrsOk(f) && AddrsOk(f') && |f'.inodes| == |f.inodes|
    && forall i, k :: 0 <= i < |f.inodes| && 0 <= k < NSLOTS ==>
         Ref(f', i, k) == if (i, k) == s then b else Ref(f, i, k)
  }

  lemma {:induction false} AddOwner(f: Fs, f': Fs, owner: Owners, s: (nat, nat), b: nat)
    requires RefsOk(f, owner, {}) && SlotOk(f, s) && b != 0 && b !in owner && Ref(f, s.0, s.1) == 0
    requires SameRefsBut(f, f', s, b)
    ensures RefsOk(f', owner[b := s], {})
  {
  }

  lemma {:induction false} LinkBits(sb: Superblock, f: Fs, f': Fs, owner: Owners, pend: set<nat>, s: (nat, nat), b: nat)
    requires BitsOk(sb, f, owner, pend) && b in pend && AddrsOk(f') && |f'.store| == |f.store|
    requires forall c :: 0 <= c < sb.nmeta ==> f'.store[c] == f.store[c]
    ensures BitsOk(sb, f', owner[b := s], pend - {b})
  {
    forall c | 0 <= c < sb.size ensures Marked(sb, f', c) == Marked(sb, f, c) {
    }
  }

  /** bmap stores a fresh block in a direct slot or, zeroed, in the indirect slot. */
  lemma {:induction false} LinkAddr(sb: Superblock, f: Fs, owner: Owners, pend: set<nat>, i: nat, k: nat, b: nat)
    requires Owned(sb, f, owner, pend, {}) && b in pend && i < |f.inodes| && k <= NDIRECT && Ref(f, i, k) == 0
    requires k == NDIRECT ==> f.store[b] == Zeros()
    ensures Owned(sb, SetAddr(f, i, k, b), owner[b := (i, k)], pend - {b}, {})
    ensures SameRefsBut(f, SetAddr(f, i, k, b), (i, k), b)
  {
    var f' := SetAddr(f, i, k, b);
    forall x, y | 0 <= x < |f.inodes| && 0 <= y < NSLOTS
      ensures Ref(f', x, y) == if (x, y) == (i, k) then b else Ref(f, x, y)
    {
      if x == i && y > NDIRECT && k == NDIRECT {
        ZeroWord(y - NDIRECT - 1);
      }
    }
    LinkBits(sb, f, f', owner, pend, (i, k), b);
    AddOwner(f, f', owner, (i, k), b);
  }

  lemma {:induction false} ZeroWord(j: nat)
    requires j < NINDIRECT
    ensures Word(Zeros(), j) == 0
  {
  }

  /** bmap stores a fresh block in a word of the indirect block. */
  lemma {:induction false} LinkWord(sb: Superblock, f: Fs, owner: Owners, pend: set<nat>, i: nat, j: nat, b: nat)
    requires Owned(sb, f, owner, pend, {}) && b in pend && i < |f.inodes| && j < NINDIRECT
    requires Ref(f, i, NDIRECT) != 0 && Ref(f, i, NDIRECT + 1 + j) == 0
    ensures Ref(f, i, NDIRECT) < sb.size && b < 0x1_0000_0000
    ensures var f' := SetWord(f, Ref(f, i, NDIRECT), j, b);
            && Owned(sb, f', owner[b := (i, NDIRECT + 1 + j)], pend - {b}, {})
            && SameRefsBut(f, f', (i, NDIRECT + 1 + j), b)
  {
    var a := Ref(f, i, NDIRECT);
    assert owner[a] == (i, NDIRECT);
    WordRefs(f, owner, i, j, b);
    var f' := SetWord(f, a, j, b);
    hide Ref;
    LinkBits(sb, f, f', owner, pend, (i, NDIRECT + 1 + j), b);
    AddOwner(f, f', owner, (i, NDIRECT + 1 + j), b);
  }

  lemma {:induction false} WordRefs(f: Fs, owner: Owners, i: nat, j: nat, b: nat)
    requires RefsOk(f, owner, {}) && i < |f.inodes| && j < NINDIRECT && b < 0x1_0000_0000
    requires 0 != Ref(f, i, NDIRECT) < |f.store|
    ensures SameRefsBut(f, SetWord(f, Ref(f, i, NDIRECT), j, b), (i, NDIRECT + 1 + j), b)
  {
    var a := Ref(f, i, NDIRECT);
    var f' := SetWord(f, a, j, b);
    forall x, y | 0 <= x < |f.inodes| && 0 <= y < NSLOTS
      ensures Ref(f', x, y) == if (x, y) == (i, NDIRECT + 1 + j) then b else Ref(f, x, y)
    {
      assert Ref(f, x, NDIRECT) == f.inodes[x].addrs[NDIRECT];
      if x == i && y > NDIRECT {
        PutWordAt(f.store[a], j, b, y - NDIRECT - 1);
      } else if y > NDIRECT {
        assert f.inodes[x].addrs[NDIRECT] != a;
      }
    }
  }

  /** Writing file data touches neither the bitmap nor any reference. */
  lemma {:induction false} DataKeeps(sb: Superblock, f: Fs, owner: Owners, pend: set<nat>, b: nat, v: ByteBlock)
    requires Owned(sb, f, owner, pend, {}) && b in owner && owner[b].1 != NDIRECT
    ensures Owned(sb, SetBlock(f, b, v), owner, pend, {})
    ensures forall i, k :: 0 <= i < |f.inodes| && 0 <= k < NSLOTS ==> Ref(SetBlock(f, b, v), i, k) == Ref(f, i, k)
  {
    var f' := SetBlock(f, b, v);
    RefsKept(f, f', owner, {});
    forall c | 0 <= c < sb.size ensures Marked(sb, f', c) == Marked(sb, f, c) {
    }
  }

  lemma {:induction false} SizeKeeps(sb: Superblock, f: Fs, owner: Owners, pend: set<nat>, dead: set<(nat, nat)>,
                                     i: nat, size: nat)
    requires Owned(sb, f, owner, pend, dead) && i < |f.inodes|
    ensures Owned(sb, SetSize(f, i, size), owner, pend, dead)
    ensures forall x, y :: 0 <= x < |f.inodes| && 0 <= y < NSLOTS ==> Ref(SetSize(f, i, size), x, y) == Ref(f, x, y)
  {
    var f' := SetSize(f, i, size);
    forall x, y | 0 <= x < |f.inodes| && 0 <= y < NSLOTS ensures Ref(f', x, y) == Ref(f, x, y) {
    }
    forall c | 0 <= c < sb.size ensures Marked(sb, f', c) == Marked(sb, f, c) {
    }
  }

  /** itrunc clears a direct slot whose block it has freed. */
  lemma {:induction false} ClearDirect(sb: Superblock, f: Fs, owner: Owners, pend: set<nat>, i: nat, k: nat)
    requires Owned(sb, f, owner, pend, {(i, k)}) && i < |f.inodes| && k < NDIRECT
    ensures Owned(sb, SetAddr(f, i, k, 0), owner, pend, {})
    ensures SameRefsBut(f, SetAddr(f, i, k, 0), (i, k), 0)
  {
    var f' := SetAddr(f, i, k, 0);
    forall x, y | 0 <= x < |f.inodes| && 0 <= y < NSLOTS
      ensures Ref(f', x, y) == if (x, y) == (i, k) then 0 else Ref(f, x, y)
    {
    }
    forall c | 0 <= c < sb.size ensures Marked(sb, f', c) == Marked(sb, f, c) {
    }
  }

  /** The slots inside the indirect block of inode i, up to word j. */
  ghost function Words(i: nat, j: nat): (s: set<(nat, nat)>) {
    set k | NDIRECT < k <= NDIRECT + j :: (i, k)
  }

  /** itrunc frees the indirect block once every block it lists is free. */
  lemma {:induction false} FreeIndirect(sb: Superblock, f: Fs, owner: Owners, pend: set<nat>, i: nat)
    requires Owned(sb, f, owner, pend, Words(i, NINDIRECT)) && i < |f.inodes| && Ref(f, i, NDIRECT) != 0
    ensures Ref(f, i, NDIRECT) in owner && Marked(sb, f, Ref(f, i, NDIRECT))
    ensures var a := Ref(f, i, NDIRECT);
            var f' := SetAddr(Mark(sb, f, a, false), i, NDIRECT, 0);
            && Owned(sb, f', owner - {a}, pend, {})
            && (forall x, y :: 0 <= x < |f.inodes| && 0 <= y < NSLOTS ==>
                 Ref(f', x, y) == if x == i && y >= NDIRECT then 0 else Ref(f, x, y))
  {
    var a := Ref(f, i, NDIRECT);
    var g := Mark(sb, f, a, false);
    assert owner[a] == (i, NDIRECT);
    FreeBits(sb, f, owner, pend, a);
    BitsAddr(sb, g, owner - {a}, pend, i, NDIRECT);
    assert BBlock(sb, a) < sb.nmeta;
    RefsKept(f, g, owner, Words(i, NINDIRECT));
    hide Marked, BitsOk;
    ClearIndirect(g, owner, i);
    var f' := SetAddr(g, i, NDIRECT, 0);
    forall x, y | 0 <= x < |f.inodes| && 0 <= y < NSLOTS
      ensures Ref(f', x, y) == if x == i && y >= NDIRECT then 0 else Ref(f, x, y)
    {
      assert Ref(g, x, y) == Ref(f, x, y);
    }
  }

  lemma {:induction false} ClearIndirect(f: Fs, owner: Owners, i: nat)
    requires RefsOk(f, owner, Words(i, NINDIRECT)) && i < |f.inodes| && Ref(f, i, NDIRECT) != 0
    ensures RefsOk(SetAddr(f, i, NDIRECT, 0), owner - {Ref(f, i, NDIRECT)}, {})
    ensures forall x, y :: 0 <= x < |f.inodes| && 0 <= y < NSLOTS ==>
              Ref(SetAddr(f, i, NDIRECT, 0), x, y) == if x == i && y >= NDIRECT then 0 else Ref(f, x, y)
  {
    var a := Ref(f, i, NDIRECT);
    var f' := SetAddr(f, i, NDIRECT, 0);
    forall x, y | 0 <= x < |f.inodes| && 0 <= y < NSLOTS
      ensures Ref(f', x, y) == if x == i && y >= NDIRECT then 0 else Ref(f, x, y)
    {
    }
    forall b | b in owner && b != a ensures Ref(f', owner[b].0, owner[b].1) == b {
      assert owner[b] !in Words(i, NINDIRECT);
      assert owner[b].0 == i ==> owner[b].1 <= NDIRECT;
    }
  }

  lemma {:induction false} BitsAddr(sb: Superblock, f: Fs, owner: Owners, pend: set<nat>, i: nat, k: nat)
    requires BitsOk(sb, f, owner, pend) && i < |f.inodes| && k <= NDIRECT
    ensures BitsOk(sb, SetAddr(f, i, k, 0), owner, pend)
  {
    forall c | 0 <= c < sb.size ensures Marked(sb, SetAddr(f, i, k, 0), c) == Marked(sb, f, c) {
    }
  }

  // ----- conservation ---------------------------------------------------------------

  ghost function FreeBlocks(sb: Superblock, f: Fs): (s: set<nat>)
    requires LayoutOk(sb, f)
  {
    set b: nat | b < sb.size && BBlock(sb, b) < |f.store| && !Marked(sb, f, b)
  }

  ghost function Below(n: nat): (s: set<nat>)
    ensures |s| == n && forall b: nat :: b in s <==> b < n
  {
    if n == 0 then {} else Below(n - 1) + {n - 1}
  }

  lemma {:induction false} CountPartition(n: nat, a: set<nat>, b: set<nat>, c: set<nat>, d: set<nat>)
    requires forall x: nat :: x < n <==> x in a || x in b || x in c || x in d
    requires forall x ::
               && (x in a ==> x !in b && x !in c && x !in d)
               && (x in b ==> x !in c && x !in d)
               && (x in c ==> x !in d)
    ensures |a| + |b| + |c| + |d| == n
  {
    assert Below(n) == a + b + c + d;
    assert |a + b + c + d| == |a + b + c| + |d|;
    assert |a + b + c| == |a + b| + |c|;
  }

  lemma {:induction false} OneKind(sb: Superblock, f: Fs, owner: Owners, pend: set<nat>, b: nat)
    requires BitsOk(sb, f, owner, pend)
    ensures b < sb.size <==> b in FreeBlocks(sb, f) || b in owner || b in pend || b < sb.nmeta
    ensures b in FreeBlocks(sb, f) ==> b !in owner && b !in pend && b >= sb.nmeta
    ensures (b in owner ==> b !in pend && b >= sb.nmeta) && (b in pend ==> b >= sb.nmeta)
  {
    if b < sb.size {
      assert BBlock(sb, b) < sb.nmeta;
    }
  }

  /** Every block is metadata, free, owned by exactly one slot, or pending. */
  lemma {:induction false} BlocksConserved(sb: Superblock, f: Fs, owner: Owners, pend: set<nat>)
    requires BitsOk(sb, f, owner, pend)
    ensures |FreeBlocks(sb, f)| + |owner| + |pend| + sb.nmeta == sb.size
  {
    hide FreeBlocks;
    forall b: nat {
      OneKind(sb, f, owner, pend, b);
    }
    hide BitsOk;
    CountPartition(sb.size, FreeBlocks(sb, f), owner.Keys, pend, Below(sb.nmeta));
  }
}
