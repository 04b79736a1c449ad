/** What a file contains: the bytes of its blocks, in the order bmap gives them. */
module FsContents {
  import opened FsState

  /** The slot of a file's bn-th block. */
  function Slot(bn: nat): (k: nat)
    requires bn < MAXFILE
    ensures k < NSLOTS && k != NDIRECT
  {
    if bn < NDIRECT then bn else bn + 1
  }

  /** The first n bytes of inode i all have a block. */
  ghost predicate Present(f: Fs, i: nat, n: nat) {
    && i < |f.inodes| && AddrsOk(f) && n <= MAXFILE * BSIZE
    && forall bn :: 0 <= bn < MAXFILE && bn * BSIZE < n ==> 0 < Ref(f, i, Slot(bn)) < |f.store|
  }

  ghost function Raw(f: Fs, i: nat, p: nat): (x: Byte)
    requires i < |f.inodes| && AddrsOk(f) && p < MAXFILE * BSIZE && Ref(f, i, Slot(p / BSIZE)) < |f.store|
  {
    f.store[Ref(f, i, Slot(p / BSIZE))][p % BSIZE]
  }

  ghost function Bytes(f: Fs, i: nat, n: nat): (s: seq<Byte>)
    requires Present(f, i, n)
    ensures |s| == n
  {
    seq(n, p requires 0 <= p < n => assert p / BSIZE * BSIZE < n; Raw(f, i, p))
  }

  /** No file has a hole below its size. */
  ghost predicate FilesOk(f: Fs) {
    forall i :: 0 <= i < |f.inodes| ==> Present(f, i, f.inodes[i].size)
  }

  ghost function Contents(f: Fs, i: nat): (s: seq<Byte>)
    requires i < |f.inodes| && FilesOk(f)
    ensures |s| == f.inodes[i].size
  {
    assert Present(f, i, f.inodes[i].size);
    Bytes(f, i, f.inodes[i].size)
  }

  function Patch(blk: ByteBlock, o: nat, d: seq<Byte>): (r: ByteBlock)
    requires o + |d| <= BSIZE
  {
    blk[..o] + d + blk[o + |d|..]
  }

  /** c with d written at offset off, extended if d reaches past its end. */
  function Splice(c: seq<Byte>, off: nat, d: seq<Byte>): (r: seq<Byte>)
    requires off <= |c|
    ensures |r| == if off + |d| <= |c| then |c| else off + |d|
  {
    c[..off] + d + (if off + |d| <= |c| then c[off + |d|..] else [])
  }

  lemma {:induction false} SpliceTwice(c: seq<Byte>, off: nat, a: seq<Byte>, b: seq<Byte>)
    requires off <= |c|
    ensures Splice(Splice(c, off, a), off + |a|, b) == Splice(c, off, a + b)
  {
  }

  lemma {:induction false} SpliceNothing(c: seq<Byte>, off: nat)
    requires off <= |c|
    ensures Splice(c, off, []) == c
  {
  }

  /** A read that follows a write sees what was written. */
  lemma {:induction false} ReadAfterWrite(c: seq<Byte>, off: nat, d: seq<Byte>)
    requires off <= |c|
    ensures off + |d| <= |Splice(c, off, d)| && Splice(c, off, d)[off..off + |d|] == d
    ensures Splice(c, off, d)[..off] == c[..off]
    ensures off + |d| <= |c| ==> Splice(c, off, d)[off + |d|..] == c[off + |d|..]
  {
  }

  /** Bytes do not change when their blocks and references do not. */
  lemma {:induction false} BytesKept(f: Fs, f': Fs, i: nat, n: nat)
    requires Present(f, i, n) && i < |f'.inodes| && AddrsOk(f') && |f'.store| == |f.store|
    requires forall bn :: 0 <= bn < MAXFILE && bn * BSIZE < n ==>
               && Ref(f', i, Slot(bn)) == Ref(f, i, Slot(bn))
               && f'.store[Ref(f, i, Slot(bn))] == f.store[Ref(f, i, Slot(bn))]
    ensures Present(f', i, n) && Bytes(f', i, n) == Bytes(f, i, n)
  {
    forall p | 0 <= p < n ensures Bytes(f', i, n)[p] == Bytes(f, i, n)[p] {
      assert p / BSIZE * BSIZE < n;
    }
  }

  /** Patching the block that holds offset `off` splices the file's bytes there. */
  lemma {:induction false} BytesPatched(f: Fs, f': Fs, i: nat, n: nat, off: nat, d: seq<Byte>)
    requires Present(f, i, n) && off <= n && 0 < |d| && off % BSIZE + |d| <= BSIZE && off < MAXFILE * BSIZE
    requires var b := Ref(f, i, Slot(off / BSIZE));
             0 < b < |f.store| && f' == SetBlock(f, b, Patch(f.store[b], off % BSIZE, d))
    requires forall bn :: 0 <= bn < MAXFILE ==> Ref(f', i, Slot(bn)) == Ref(f, i, Slot(bn))
    requires forall bn :: 0 <= bn < MAXFILE && bn != off / BSIZE && bn * BSIZE < n ==>
               Ref(f, i, Slot(bn)) != Ref(f, i, Slot(off / BSIZE))
    ensures var n' := if n < off + |d| then off + |d| else n;
            Present(f', i, n') && Bytes(f', i, n') == Splice(Bytes(f, i, n), off, d)
  {
    var n' := if n < off + |d| then off + |d| else n;
    forall bn | 0 <= bn < MAXFILE && bn * BSIZE < n' ensures 0 < Ref(f', i, Slot(bn)) < |f'.store| {
      if n <= bn * BSIZE {
        assert bn == off / BSIZE;
      }
    }
    var s := Splice(Bytes(f, i, n), off, d);
    forall p | 0 <= p < n' ensures Bytes(f', i, n')[p] == s[p] {
      PatchedAt(f, f', i, n, off, d, p);
    }
  }

  lemma {:induction false} PatchedAt(f: Fs, f': Fs, i: nat, n: nat, off: nat, d: seq<Byte>, p: nat)
    requires Present(f, i, n) && off <= n && 0 < |d| && off % BSIZE + |d| <= BSIZE && off < MAXFILE * BSIZE
    requires p < n || p < off + |d|
    requires var b := Ref(f, i, Slot(off / BSIZE));
             0 < b < |f.store| && f' == SetBlock(f, b, Patch(f.store[b], off % BSIZE, d))
    requires forall bn :: 0 <= bn < MAXFILE ==> Ref(f', i, Slot(bn)) == Ref(f, i, Slot(bn))
    requires forall bn :: 0 <= bn < MAXFILE && bn != off / BSIZE && bn * BSIZE < n ==>
               Ref(f, i, Slot(bn)) != Ref(f, i, Slot(off / BSIZE))
    ensures p < MAXFILE * BSIZE && Ref(f, i, Slot(p / BSIZE)) < |f.store|
    ensures Raw(f', i, p) == Splice(Bytes(f, i, n), off, d)[p]
  {
    if p / BSIZE == off / BSIZE {
      assert p - off == p % BSIZE - off % BSIZE;
    } else {
      assert p < n;
    }
    if p < n {
      assert p / BSIZE * BSIZE < n;
      assert Bytes(f, i, n)[p] == Raw(f, i, p);
    }
  }
}
