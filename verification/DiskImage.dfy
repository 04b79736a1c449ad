/**
 How the file system of FsState lies on the disk of Journal: a block's bytes as words, and
 sixteen inodes to a block of the inode area.  A disk that holds an image can be mounted, and
 what is mounted does not depend on the log area.
 */
module DiskImage {
  import FS = FileSystem
  import opened FsContents
  import opened FsState
  import J = Journal

  const IPB: nat := 16          // inodes per block
  const INODE_WORDS: nat := 16  // 32-bit words in an inode

  // ----- blocks of bytes as blocks of words -----------------------------------------------------

  function EncodeBlock(b: ByteBlock): (e: J.Block) {
    seq(J.WORDS, i requires 0 <= i < J.WORDS => Word(b, i))
  }

  function ByteOf(w: nat, k: nat): (x: Byte) {
    if k == 0 then w % 0x100 else ByteOf(w / 0x100, k - 1)
  }

  function DecodeBlock(e: J.Block): (b: ByteBlock) {
    seq(BSIZE, p requires 0 <= p < BSIZE => ByteOf(e[p / 4], p % 4))
  }

  lemma {:induction false} TopByte(x: nat, w: nat)
    requires x < 0x100
    ensures (x + 0x100 * w) % 0x100 == x && (x + 0x100 * w) / 0x100 == w
  {
  }

  lemma {:induction false} WordBytes(b: ByteBlock, i: nat, k: nat)
    requires i < NINDIRECT && k < 4
    ensures ByteOf(Word(b, i), k) == b[4 * i + k]
  {
    var w3 := Num(b[4 * i + 3]);
    var w2 := Num(b[4 * i + 2]) + 0x100 * w3;
    var w1 := Num(b[4 * i + 1]) + 0x100 * w2;
    assert Word(b, i) == Num(b[4 * i]) + 0x100 * w1;
    TopByte(b[4 * i], w1);
    TopByte(b[4 * i + 1], w2);
    TopByte(b[4 * i + 2], w3);
    assert ByteOf(w3, 0) == w3;
    assert ByteOf(w2, 1) == w3 && ByteOf(w2, 0) == b[4 * i + 2];
    assert ByteOf(w1, 2) == w3 && ByteOf(w1, 1) == b[4 * i + 2] && ByteOf(w1, 0) == b[4 * i + 1];
  }

  lemma {:induction false} DecodeEncode(b: ByteBlock)
    ensures DecodeBlock(EncodeBlock(b)) == b
  {
    hide Word, ByteOf;
    forall p | 0 <= p < BSIZE ensures DecodeBlock(EncodeBlock(b))[p] == b[p] {
      WordBytes(b, p / 4, p % 4);
    }
  }

  // ----- inodes ----------------------------------------------------------------------------------

  /** struct dinode without device numbers and link count. */
  function InodeWord(x: Inode, j: nat): (w: nat)
    requires |x.addrs| == NDIRECT + 1 && j < INODE_WORDS
  {
    if j == 0 then x.typ else if j == 1 then 0 else if j == 2 then x.size else x.addrs[j - 3]
  }

  function EncodeInodes(inodes: seq<Inode>, k: nat): (e: J.Block)
    requires forall i :: 0 <= i < |inodes| ==> |inodes[i].addrs| == NDIRECT + 1
  {
    seq(J.WORDS, i requires 0 <= i < J.WORDS =>
          if IPB * k + i / INODE_WORDS < |inodes|
          then InodeWord(inodes[IPB * k + i / INODE_WORDS], i % INODE_WORDS)
          else 0)
  }

  function DecodeInode(e: J.Block, i: nat): (x: Inode)
    requires i < IPB
    ensures |x.addrs| == NDIRECT + 1
  {
    var w := e[INODE_WORDS * i..INODE_WORDS * i + INODE_WORDS];
    Inode(w[0], w[2], w[3..])
  }

  lemma {:induction false} InodeAt(k: nat, j: nat)
    requires j < 16
    ensures (16 * k + j) / 16 == k && (16 * k + j) % 16 == j
  {
  }

  lemma {:induction false} EncodedAt(inodes: seq<Inode>, i: nat, j: nat)
    requires forall x :: 0 <= x < |inodes| ==> |inodes[x].addrs| == NDIRECT + 1
    requires i < |inodes| && j < INODE_WORDS
    ensures EncodeInodes(inodes, i / IPB)[INODE_WORDS * (i % IPB) + j] == InodeWord(inodes[i], j)
  {
    InodeAt(i % IPB, j);
    hide InodeWord;
    assert IPB * (i / IPB) + i % IPB == i;
  }

  lemma {:induction false} DecodeInodes(inodes: seq<Inode>, i: nat)
    requires forall x :: 0 <= x < |inodes| ==> |inodes[x].addrs| == NDIRECT + 1
    requires i < |inodes|
    ensures DecodeInode(EncodeInodes(inodes, i / IPB), i % IPB) == inodes[i]
  {
    hide EncodeInodes;
    var e, k := EncodeInodes(inodes, i / IPB), i % IPB;
    var x := DecodeInode(e, k);
    EncodedAt(inodes, i, 0);
    EncodedAt(inodes, i, 2);
    forall j | 0 <= j < NDIRECT + 1 ensures x.addrs[j] == inodes[i].addrs[j] {
      EncodedAt(inodes, i, j + 3);
      assert x.addrs[j] == e[INODE_WORDS * k + (j + 3)];
    }
  }

  // ----- the whole disk --------------------------------------------------------------------------

  predicate InInodes(sb: Superblock, n: nat, b: nat) {
    sb.inodestart <= b < sb.inodestart + (n + IPB - 1) / IPB
  }

  predicate InBitmap(sb: Superblock, b: nat) {
    0 < sb.size && sb.bmapstart <= b <= sb.bmapstart + (sb.size - 1) / BPB
  }

  /** Log, inodes and bitmap lie apart, before the data blocks. */
  ghost predicate Apart(sb: Superblock, g: J.Geometry, n: nat) {
    && 0 < g.size && g.start + g.size <= sb.nmeta && sb.inodestart + (n + IPB - 1) / IPB <= sb.nmeta <= sb.size
    && (forall b :: InInodes(sb, n, b) ==> !J.InLog(g, b) && !InBitmap(sb, b))
    && (forall b :: InBitmap(sb, b) ==> !J.InLog(g, b))
  }

  function ImageAt(sb: Superblock, f: Fs, b: nat): (e: J.Block)
    requires b < |f.store| && forall i :: 0 <= i < |f.inodes| ==> |f.inodes[i].addrs| == NDIRECT + 1
  {
    if InInodes(sb, |f.inodes|, b) then EncodeInodes(f.inodes, b - sb.inodestart) else EncodeBlock(f.store[b])
  }

  ghost function Image(sb: Superblock, f: Fs): (d: J.Disk)
    requires AddrsOk(f)
  {
    seq(|f.store|, b requires 0 <= b < |f.store| => ImageAt(sb, f, b))
  }

  /** The file system that a disk holds, with n inodes. */
  function Mount(sb: Superblock, n: nat, disk: J.Disk): (f: Fs)
    requires sb.inodestart + (n + IPB - 1) / IPB <= |disk|
    ensures |f.inodes| == n && |f.store| == |disk| && forall i :: 0 <= i < n ==> |f.inodes[i].addrs| == NDIRECT + 1
  {
    var store := seq(|disk|, b requires 0 <= b < |disk| => DecodeBlock(disk[b]));
    var inodes := seq(n, i requires 0 <= i < n => DecodeInode(disk[sb.inodestart + i / IPB], i % IPB));
    Fs(store, inodes)
  }

  /** The same files: inodes, bitmap and data agree; log and inode area hold whatever they hold. */
  ghost predicate SameFiles(sb: Superblock, f: Fs, f': Fs) {
    && f'.inodes == f.inodes && |f'.store| == |f.store|
    && forall b :: 0 <= b < |f.store| && (InBitmap(sb, b) || sb.nmeta <= b) ==> f'.store[b] == f.store[b]
  }

  lemma {:induction false} MountImage(sb: Superblock, g: J.Geometry, f: Fs, disk: J.Disk)
    requires AddrsOk(f) && |f.store| == sb.size && Apart(sb, g, |f.inodes|) && J.SameHome(g, disk, Image(sb, f))
    ensures SameFiles(sb, f, Mount(sb, |f.inodes|, disk))
    ensures J.SameHome(g, Image(sb, Mount(sb, |f.inodes|, disk)), disk)
  {
    hide EncodeBlock, DecodeBlock, EncodeInodes, DecodeInode;
    var n := |f.inodes|;
    var m := Mount(sb, n, disk);
    forall i | 0 <= i < n ensures m.inodes[i] == f.inodes[i] {
      assert InInodes(sb, n, sb.inodestart + i / IPB);
      DecodeInodes(f.inodes, i);
    }
    assert m.inodes == f.inodes;
    forall b | 0 <= b < sb.size && !J.InLog(g, b) && !InInodes(sb, n, b) ensures m.store[b] == f.store[b] {
      DecodeEncode(f.store[b]);
    }
  }

  /** What the files are does not depend on the other areas. */
  lemma {:induction false} SameFilesOwned(sb: Superblock, f: Fs, f': Fs, owner: Owners)
    requires SameFiles(sb, f, f') && Owned(sb, f, owner, {}, {})
    ensures Owned(sb, f', owner, {}, {})
    ensures forall i, k :: 0 <= i < |f.inodes| && 0 <= k < NSLOTS ==> Ref(f', i, k) == Ref(f, i, k)
  {
    RefsKept(f, f', owner, {});
    hide Ref, BitOf, RefsOk;
    forall b | 0 <= b < sb.size ensures BBlock(sb, b) < |f'.store| && Marked(sb, f', b) == Marked(sb, f, b) {
      BBlockOk(sb, f, b);
      assert InBitmap(sb, BBlock(sb, b));
    }
  }

  lemma {:induction false} SameFilesContents(sb: Superblock, f: Fs, f': Fs, owner: Owners)
    requires SameFiles(sb, f, f') && Owned(sb, f, owner, {}, {}) && FilesOk(f)
    ensures FilesOk(f') && forall i :: 0 <= i < |f.inodes| ==> Contents(f', i) == Contents(f, i)
  {
    SameFilesOwned(sb, f, f', owner);
    hide Ref, Marked, Owned;
    forall i | 0 <= i < |f.inodes|
      ensures Present(f', i, f.inodes[i].size) && Bytes(f', i, f.inodes[i].size) == Bytes(f, i, f.inodes[i].size)
    {
      forall bn | 0 <= bn < MAXFILE && bn * BSIZE < f.inodes[i].size
        ensures f'.store[Ref(f, i, Slot(bn))] == f.store[Ref(f, i, Slot(bn))]
      {
        DataBlock(sb, f, owner, i, Slot(bn));
      }
      BytesKept(f, f', i, f.inodes[i].size);
    }
  }

  /** A block that an inode refers to is a data block. */
  lemma {:induction false} DataBlock(sb: Superblock, f: Fs, owner: Owners, i: nat, k: nat)
    requires Owned(sb, f, owner, {}, {}) && i < |f.inodes| && k < NSLOTS && Ref(f, i, k) != 0
    ensures sb.nmeta <= Ref(f, i, k) < sb.size
  {
    hide Ref, Marked;
  }
}
