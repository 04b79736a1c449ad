/**
 The buffer cache of kernel/bio.c: NBUF buffers on a doubly linked ring kept in
 order of last use, with reference counts and sleep locks.  `View` is the plain
 block map the cache stands for; every operation is specified by what it does to it.
 */
module Bio {
  import opened Journal
  import opened Sequences

  const NBUF: nat := 30
  const HEAD: nat := NBUF   // the ring's sentinel, bcache.head
  const ROOTDEV: nat := 1

  /** struct buf without its ring links; `owner` is the sleep lock's pid, 0 when it is free. */
  datatype Buf = Buf(valid: bool, dev: nat, blockno: nat, refcnt: nat, owner: nat, data: Block)

  predicate Caches(x: Buf, blockno: nat) {
    x.dev == ROOTDEV && x.blockno == blockno
  }

  // ----- the ring -------------------------------------------------------------

  function After(c: seq<nat>, i: nat): (j: nat)
    requires i < |c|
  {
    if i + 1 < |c| then i + 1 else 0
  }

  /** Following `next` (`prev`) from c[0] visits exactly c, in order (in reverse). */
  ghost predicate IsRing(c: seq<nat>, next: seq<nat>, prev: seq<nat>) {
    && |next| == |prev| == NBUF + 1
    && c != [] && c[0] == HEAD && Distinct(c)
    && (forall i :: 0 <= i < |c| ==> c[i] <= NBUF)
    && (forall i :: 0 <= i < |c| ==> next[c[i]] == c[After(c, i)] && prev[c[After(c, i)]] == c[i])
  }

  lemma {:induction false} Unlink(c: seq<nat>, next: seq<nat>, prev: seq<nat>, k: nat)
    requires IsRing(c, next, prev) && 1 <= k < |c|
    ensures next[c[k]] <= NBUF && prev[c[k]] <= NBUF
    ensures IsRing(c[..k] + c[k + 1..], next[prev[c[k]] := next[c[k]]], prev[next[c[k]] := prev[c[k]]])
  {
    var d := c[..k] + c[k + 1..];
    assert After(c, k - 1) == k;
    assert c[k - 1] == prev[c[k]] && c[After(c, k)] == next[c[k]];
    var n' := next[prev[c[k]] := next[c[k]]];
    var p' := prev[next[c[k]] := prev[c[k]]];
    forall i | 0 <= i < |d| ensures n'[d[i]] == d[After(d, i)] && p'[d[After(d, i)]] == d[i] {
      UnlinkAt(c, next, prev, k, i);
    }
  }

  lemma {:induction false} UnlinkAt(c: seq<nat>, next: seq<nat>, prev: seq<nat>, k: nat, i: nat)
    requires IsRing(c, next, prev) && 1 <= k < |c| && i < |c| - 1
    requires c[k - 1] == prev[c[k]] && c[After(c, k)] == next[c[k]]
    ensures var d := c[..k] + c[k + 1..];
            && next[prev[c[k]] := next[c[k]]][d[i]] == d[After(d, i)]
            && prev[next[c[k]] := prev[c[k]]][d[After(d, i)]] == d[i]
  {
    var d := c[..k] + c[k + 1..];
    var j := if i < k then i else i + 1;
    assert d[i] == c[j];
    if i == k - 1 {
      assert d[After(d, i)] == c[After(c, k)];
    } else {
      assert d[After(d, i)] == c[After(c, j)];
    }
  }

  /** Insert `b` right behind the sentinel, as brelse and binit do. */
  lemma {:induction false} LinkFirst(c: seq<nat>, next: seq<nat>, prev: seq<nat>, b: nat)
    requires IsRing(c, next, prev) && b <= NBUF && b !in c
    ensures next[HEAD] <= NBUF
    ensures IsRing([HEAD, b] + c[1..], next[b := next[HEAD]][HEAD := b], prev[b := HEAD][next[HEAD] := b])
  {
    var d := [HEAD, b] + c[1..];
    var first := next[HEAD];
    assert first == c[After(c, 0)];
    forall i | 0 <= i < |d|
      ensures next[b := first][HEAD := b][d[i]] == d[After(d, i)]
      ensures prev[b := HEAD][first := b][d[After(d, i)]] == d[i]
    {
      if i == 0 {
      } else if i == 1 {
        assert d[After(d, 1)] == c[After(c, 0)];
      } else {
        assert d[i] == c[i - 1] && d[After(d, i)] == c[After(c, i - 1)];
        assert c[After(c, i - 1)] != first;
      }
    }
  }

  /** Every buffer stands once in the ring. */
  ghost predicate Order(ring: seq<nat>) {
    && |ring| == NBUF && Distinct(ring)
    && (forall i :: 0 <= i < NBUF ==> ring[i] < NBUF)
    && (forall b :: 0 <= b < NBUF ==> b in ring)
  }

  /** The ring with its k-th buffer moved to the front. */
  function ToFront(ring: seq<nat>, k: nat): (r: seq<nat>)
    requires k < |ring|
  {
    [ring[k]] + ring[..k] + ring[k + 1..]
  }

  lemma {:induction false} ToFrontOrder(ring: seq<nat>, k: nat)
    requires Order(ring) && k < NBUF
    ensures Order(ToFront(ring, k))
  {
    var r := ToFront(ring, k);
    forall x | 0 <= x < NBUF ensures x in r {
      assert x in ring;
      var i :| 0 <= i < NBUF && ring[i] == x;
      assert x == r[if i == k then 0 else if i < k then i + 1 else i];
    }
  }

  function Place(ring: seq<nat>, b: nat): (k: nat)
    requires b in ring
    ensures k < |ring| && ring[k] == b
  {
    if ring[0] == b then 0 else 1 + Place(ring[1..], b)
  }

  /** The ring after these buffers have lost their last reference, in this order. */
  ghost function Released(ring: seq<nat>, h: seq<nat>): (r: seq<nat>)
    requires Order(ring) && forall i :: 0 <= i < |h| ==> h[i] < NBUF
    ensures Order(r)
    decreases |h|
  {
    if h == [] then ring
    else
      var mid := Released(ring, h[..|h| - 1]);
      var k := Place(mid, h[|h| - 1]);
      ToFrontOrder(mid, k);
      ToFront(mid, k)
  }

  /** When b was last released, counted from 1; 0 if it never was. */
  function LastRelease(h: seq<nat>, b: nat): (n: nat)
    ensures n <= |h|
    decreases |h|
  {
    if h == [] then 0 else if h[|h| - 1] == b then |h| else LastRelease(h[..|h| - 1], b)
  }

  /** What stands behind the first element of ToFront, and where it stood before. */
  lemma {:induction false} BehindFront(ring: seq<nat>, k: nat, i: nat)
    requires Order(ring) && k < NBUF && i < NBUF
    ensures var r := ToFront(ring, k);
            |r| == NBUF && r[i] == (if i == 0 then ring[k] else if i <= k then ring[i - 1] else ring[i])
            && (i > 0 ==> r[i] != ring[k])
  {
  }

  /** The ring is in order of use: nearer the front is released later, or both were never released. */
  lemma {:induction false} RecentFirst(ring: seq<nat>, h: seq<nat>, i: nat, j: nat)
    requires Order(ring) && (forall x :: 0 <= x < |h| ==> h[x] < NBUF) && i < j < NBUF
    ensures var r := Released(ring, h);
            || LastRelease(h, r[i]) > LastRelease(h, r[j])
            || (LastRelease(h, r[i]) == LastRelease(h, r[j]) == 0 && Place(ring, r[i]) < Place(ring, r[j]))
    decreases |h|
  {
    hide ToFront, Distinct, Place;
    if h == [] {
      OnePlace(ring, i);
      OnePlace(ring, j);
    } else {
      var h1 := h[..|h| - 1];
      var mid := Released(ring, h1);
      var k := Place(mid, h[|h| - 1]);
      BehindFront(mid, k, i);
      BehindFront(mid, k, j);
      if i > 0 {
        RecentFirst(ring, h1, if i <= k then i - 1 else i, if j <= k then j - 1 else j);
      }
    }
  }

  lemma {:induction false} OnePlace(ring: seq<nat>, i: nat)
    requires Distinct(ring) && i < |ring|
    ensures Place(ring, ring[i]) == i
  {
  }

  /** brelse's six assignments, on the links. */
  lemma {:induction false} ToFrontLinks(ring: seq<nat>, next: seq<nat>, prev: seq<nat>, k: nat)
    requires Order(ring) && IsRing([HEAD] + ring, next, prev) && k < NBUF
    ensures var b := ring[k];
            && next[b] <= NBUF && prev[b] <= NBUF && next[b] != b
            && var p1 := prev[next[b] := prev[b]];
            var n1 := next[prev[b] := next[b]];
            && n1[HEAD] <= NBUF
            && IsRing([HEAD] + ToFront(ring, k), n1[b := n1[HEAD]][HEAD := b], p1[b := HEAD][n1[HEAD] := b])
  {
    hide Order, Distinct, IsRing, ToFront;
    OrderSize(ring);
    var c := [HEAD] + ring;
    var d := c[..k + 1] + c[k + 2..];
    RingAt(c, next, prev, k + 1);
    RestDistinct(c, k + 1);
    FrontLinked(ring, k);
    Unlink(c, next, prev, k + 1);
    LinkFirst(d, next[prev[ring[k]] := next[ring[k]]], prev[next[ring[k]] := prev[ring[k]]], ring[k]);
  }

  lemma {:induction false} OrderSize(ring: seq<nat>)
    requires Order(ring)
    ensures |ring| == NBUF
  {
  }

  lemma {:induction false} RingAt(c: seq<nat>, next: seq<nat>, prev: seq<nat>, k: nat)
    requires IsRing(c, next, prev) && 1 <= k < |c|
    ensures |next| == |prev| == NBUF + 1 && c[k] <= NBUF && Distinct(c) && c[0] == HEAD
    ensures next[c[k]] <= NBUF && prev[c[k]] <= NBUF && next[c[k]] != c[k]
  {
    assert c[After(c, k - 1)] == c[k];
    assert c[After(c, k)] != c[k];
  }

  lemma {:induction false} FrontLinked(ring: seq<nat>, k: nat)
    requires k < |ring|
    ensures var c := [HEAD] + ring;
            [HEAD] + ToFront(ring, k) == [HEAD, ring[k]] + (c[..k + 1] + c[k + 2..])[1..]
  {
  }

  lemma {:induction false} RestDistinct(c: seq<nat>, k: nat)
    requires Distinct(c) && k < |c|
    ensures c[k] !in c[..k] + c[k + 1..]
  {
  }

  /** n - 1 down to 0. */
  function Down(n: nat): (s: seq<nat>) {
    seq(n, i requires 0 <= i < n => n - 1 - i)
  }

  lemma {:induction false} DownMore(b: nat)
    requires b < NBUF
    ensures [HEAD, b] + ([HEAD] + Down(b))[1..] == [HEAD] + Down(b + 1) && b !in [HEAD] + Down(b)
  {
    assert [b] + Down(b) == Down(b + 1);
  }

  lemma {:induction false} DownOrder()
    ensures Order(Down(NBUF))
  {
    forall b | 0 <= b < NBUF ensures b in Down(NBUF) {
      assert Down(NBUF)[NBUF - 1 - b] == b;
    }
  }

  lemma {:induction false} AloneRing(next: seq<nat>, prev: seq<nat>)
    requires next == prev == seq(NBUF + 1, i => HEAD)
    ensures IsRing([HEAD] + Down(0), next, prev)
  {
    assert [HEAD] + Down(0) == [HEAD];
  }

  lemma {:induction false} RingSize(c: seq<nat>, next: seq<nat>, prev: seq<nat>)
    requires IsRing(c, next, prev)
    ensures |next| == |prev| == NBUF + 1
  {
  }

  /** binit's loop: link each buffer behind the sentinel of an empty ring. */
  method LinkAll() returns (next: seq<nat>, prev: seq<nat>, ghost ring: seq<nat>)
    ensures Order(ring) && IsRing([HEAD] + ring, next, prev) && ring == Down(NBUF)
  {
    hide IsRing, Order, Down;
    next, prev := seq(NBUF + 1, i => HEAD), seq(NBUF + 1, i => HEAD);
    AloneRing(next, prev);
    for b := 0 to NBUF
      invariant IsRing([HEAD] + Down(b), next, prev)
    {
      RingSize([HEAD] + Down(b), next, prev);
      DownMore(b);
      LinkFirst([HEAD] + Down(b), next, prev, b);
      next := next[b := next[HEAD]];
      prev := prev[b := HEAD];
      prev := prev[next[HEAD] := b];
      next := next[HEAD := b];
    }
    DownOrder();
    ring := Down(NBUF);
  }

  // ----- the block map --------------------------------------------------------

  ghost predicate Unique(bufs: seq<Buf>) {
    forall i, j :: 0 <= i < j < |bufs| && bufs[i].dev != 0 && bufs[i].dev == bufs[j].dev ==>
                     bufs[i].blockno != bufs[j].blockno
  }

  /** The value of a block: the cached copy if there is a valid one, else what is on disk. */
  ghost function Look(bufs: seq<Buf>, disk: Disk, n: nat): (v: Block)
    requires n < |disk|
  {
    if exists b :: 0 <= b < |bufs| && bufs[b].valid && Caches(bufs[b], n) then
      var b :| 0 <= b < |bufs| && bufs[b].valid && Caches(bufs[b], n);
      bufs[b].data
    else disk[n]
  }

  ghost function View(bufs: seq<Buf>, disk: Disk): (v: Disk)
    ensures |v| == |disk|
  {
    seq(|disk|, n requires 0 <= n < |disk| => Look(bufs, disk, n))
  }

  lemma {:induction false} LookHit(bufs: seq<Buf>, disk: Disk, b: nat)
    requires Unique(bufs) && b < |bufs| && bufs[b].valid && bufs[b].dev == ROOTDEV && bufs[b].blockno < |disk|
    ensures View(bufs, disk)[bufs[b].blockno] == bufs[b].data
  {
    assert Caches(bufs[b], bufs[b].blockno);
  }

  predicate SameCopy(x: Buf, y: Buf) {
    x.valid == y.valid && x.dev == y.dev && x.blockno == y.blockno && x.data == y.data
  }

  /** Reference counts and locks do not show in the map. */
  lemma {:induction false} ViewTouch(bufs: seq<Buf>, disk: Disk, b: nat, x: Buf)
    requires Unique(bufs) && b < |bufs| && SameCopy(bufs[b], x)
    ensures Unique(bufs[b := x]) && View(bufs[b := x], disk) == View(bufs, disk)
  {
    var bufs' := bufs[b := x];
    forall n | 0 <= n < |disk| ensures Look(bufs', disk, n) == Look(bufs, disk, n) {
      if i :| 0 <= i < |bufs| && bufs[i].valid && Caches(bufs[i], n) {
        assert bufs'[i].valid && Caches(bufs'[i], n);
      }
    }
  }

  /** Giving a clean buffer to an uncached block does not show either. */
  lemma {:induction false} ViewRecycle(bufs: seq<Buf>, disk: Disk, b: nat, x: Buf)
    requires Unique(bufs) && b < |bufs| && !x.valid && x.dev == ROOTDEV
    requires forall i :: 0 <= i < |bufs| ==> !Caches(bufs[i], x.blockno)
    requires bufs[b].valid && bufs[b].dev == ROOTDEV ==>
               bufs[b].blockno < |disk| && bufs[b].data == disk[bufs[b].blockno]
    ensures Unique(bufs[b := x]) && View(bufs[b := x], disk) == View(bufs, disk)
  {
    var bufs' := bufs[b := x];
    forall n | 0 <= n < |disk| ensures Look(bufs', disk, n) == Look(bufs, disk, n) {
      if i :| 0 <= i < |bufs| && i != b && bufs[i].valid && Caches(bufs[i], n) {
        assert bufs'[i].valid && Caches(bufs'[i], n);
      }
    }
  }

  /** Reading a block from disk into its buffer shows nothing new. */
  lemma {:induction false} ViewFill(bufs: seq<Buf>, disk: Disk, b: nat)
    requires Unique(bufs) && b < |bufs| && !bufs[b].valid && bufs[b].dev == ROOTDEV && bufs[b].blockno < |disk|
    ensures var bufs' := bufs[b := bufs[b].(valid := true, data := disk[bufs[b].blockno])];
            Unique(bufs') && View(bufs', disk) == View(bufs, disk)
  {
    var bufs' := bufs[b := bufs[b].(valid := true, data := disk[bufs[b].blockno])];
    forall n | 0 <= n < |disk| ensures Look(bufs', disk, n) == Look(bufs, disk, n) {
      if i :| 0 <= i < |bufs| && i != b && bufs[i].valid && Caches(bufs[i], n) {
        assert bufs'[i].valid && Caches(bufs'[i], n);
      }
    }
  }

  /** Changing a valid buffer changes exactly its block. */
  lemma {:induction false} ViewStore(bufs: seq<Buf>, disk: Disk, b: nat, v: Block)
    requires Unique(bufs) && b < |bufs| && bufs[b].valid && bufs[b].dev == ROOTDEV && bufs[b].blockno < |disk|
    ensures Unique(bufs[b := bufs[b].(data := v)])
    ensures View(bufs[b := bufs[b].(data := v)], disk) == View(bufs, disk)[bufs[b].blockno := v]
  {
    var bufs' := bufs[b := bufs[b].(data := v)];
    forall n | 0 <= n < |disk|
      ensures Look(bufs', disk, n) == if n == bufs[b].blockno then v else Look(bufs, disk, n)
    {
      if n == bufs[b].blockno {
        LookHit(bufs', disk, b);
      } else if i :| 0 <= i < |bufs| && bufs[i].valid && Caches(bufs[i], n) {
        assert bufs'[i].valid && Caches(bufs'[i], n);
      }
    }
  }

  /** Writing a valid buffer out changes the disk under it and nothing a reader sees. */
  lemma {:induction false} ViewWrite(bufs: seq<Buf>, disk: Disk, b: nat)
    requires Unique(bufs) && b < |bufs| && bufs[b].valid && bufs[b].dev == ROOTDEV && bufs[b].blockno < |disk|
    ensures View(bufs, disk[bufs[b].blockno := bufs[b].data]) == View(bufs, disk)
  {
    assert Caches(bufs[b], bufs[b].blockno);
  }

  // ----- the cache ------------------------------------------------------------

  class Bcache {
    var bufs: seq<Buf>
    var next: seq<nat>
    var prev: seq<nat>
    var disk: Disk
    ghost var ring: seq<nat>      // buffers from most to least recently used
    ghost var users: seq<nat>     // processes between bget and brelse, per buffer
    ghost var pins: seq<nat>      // bpin minus bunpin, per buffer
    ghost var disk0: Disk         // the disk at boot ...
    ghost var writes: seq<Write>  // ... and every write since

    ghost predicate RingOk()
      reads this
    {
      && Order(ring)
      && IsRing([HEAD] + ring, next, prev)
    }

    ghost predicate CountsOk()
      reads this
    {
      && |bufs| == |users| == |pins| == NBUF
      && forall b :: 0 <= b < NBUF ==>
           && bufs[b].refcnt == users[b] + pins[b]
           && (bufs[b].owner != 0 ==> users[b] > 0)
           && (pins[b] > 0 ==> bufs[b].valid)
           && (bufs[b].valid ==> bufs[b].dev == ROOTDEV)
           && (bufs[b].dev == ROOTDEV ==> bufs[b].blockno < |disk|)
           && (bufs[b].dev == ROOTDEV || bufs[b].dev == 0)
    }

    /** A buffer that nobody has locked and nobody has pinned equals the disk. */
    ghost predicate CleanOk()
      reads this
      requires CountsOk()
    {
      forall b :: 0 <= b < NBUF && bufs[b].valid && bufs[b].owner == 0 && pins[b] == 0 ==>
        bufs[b].data == disk[bufs[b].blockno]
    }

    /** The disk is what the writes so far made of the boot disk: these are its crash points. */
    ghost predicate TraceOk()
      reads this
    {
      WritesFit(writes, |disk0|) && disk == Apply(disk0, writes)
    }

    ghost predicate Valid()
      reads this
    {
      RingOk() && CountsOk() && CleanOk() && Unique(bufs) && TraceOk()
    }

    ghost predicate Cached(blockno: nat)
      reads this
    {
      exists b :: 0 <= b < |bufs| && Caches(bufs[b], blockno)
    }

    /** bget will not panic: the block is cached or some buffer is unused. */
    ghost predicate Available(blockno: nat)
      reads this
    {
      Cached(blockno) || exists b :: 0 <= b < |bufs| && bufs[b].refcnt == 0
    }

    /** binit: an empty ring into which each buffer is linked behind the sentinel. */
    constructor (d: Disk)
      ensures Valid() && disk == d && View(bufs, disk) == d
      ensures forall b :: 0 <= b < NBUF ==> bufs[b].refcnt == 0 && bufs[b].owner == 0
      ensures writes == []
    {
      var empty := Buf(false, 0, 0, 0, 0, seq(WORDS, i => 0));
      bufs := seq(NBUF, i => empty);
      users := seq(NBUF, i => 0);
      pins := seq(NBUF, i => 0);
      disk := d;
      disk0, writes := d, [];
      var nx, pv, order := LinkAll();
      next, prev, ring := nx, pv, order;
    }

    /**
     bget up to the sleep lock: take a reference to the block's buffer, recycling
     the least recently used buffer without references if the block is not cached.
     It panics exactly when the block is not cached and every buffer is referenced.
     */
    method Bget(blockno: nat) returns (panicked: bool, b: nat)
      requires Valid() && blockno < |disk|
      modifies this`bufs, this`users
      ensures Valid() && (panicked <==> !old(Available(blockno)))
      ensures panicked ==> bufs == old(bufs) && users == old(users)
      ensures !panicked ==> b < NBUF && Caches(bufs[b], blockno) && users == old(users)[b := old(users)[b] + 1]
      ensures old(Cached(blockno)) ==>
                Caches(old(bufs)[b], blockno) &&
                bufs == old(bufs)[b := old(bufs)[b].(refcnt := old(bufs)[b].refcnt + 1)]
      ensures !panicked && !old(Cached(blockno)) ==>
                && old(bufs)[b].refcnt == 0 && !bufs[b].valid && bufs[b].owner == 0
                && bufs == old(bufs)[b := Buf(false, ROOTDEV, blockno, 1, 0, old(bufs)[b].data)]
                && exists k :: 0 <= k < NBUF && ring[k] == b &&
                               forall i :: k < i < NBUF ==> old(bufs)[ring[i]].refcnt > 0
      ensures View(bufs, disk) == old(View(bufs, disk))
    {
      hide Apply;
      panicked := false;
      b := Find(blockno);
      if b != HEAD {
        Reference(b);
      } else {
        b := LeastRecent();
        if b == HEAD {
          return true, b;
        }
        Recycle(b, blockno);
      }
    }

    /** bget's first scan: the buffer of a cached block, or the sentinel. */
    method Find(blockno: nat) returns (b: nat)
      requires RingOk() && |bufs| == NBUF
      ensures b <= NBUF
      ensures b != HEAD ==> Caches(bufs[b], blockno)
      ensures b == HEAD ==> !Cached(blockno)
    {
      ghost var k := 0;
      NextAt(0);
      b := next[HEAD];
      while b != HEAD
        invariant 0 <= k <= NBUF && b == if k < NBUF then ring[k] else HEAD
        invariant forall i :: 0 <= i < k ==> !Caches(bufs[ring[i]], blockno)
        decreases NBUF - k
      {
        if bufs[b].dev == ROOTDEV && bufs[b].blockno == blockno {
          return;
        }
        NextAt(k + 1);
        b := next[b];
        k := k + 1;
      }
      forall x | 0 <= x < NBUF ensures !Caches(bufs[x], blockno) {
        assert x in ring;
      }
    }

    lemma NextAt(k: nat)
      requires RingOk() && k <= NBUF
      ensures next[if k == 0 then HEAD else ring[k - 1]] == if k < NBUF then ring[k] else HEAD
    {
      var c := [HEAD] + ring;
      assert next[c[k]] == c[After(c, k)];
    }

    lemma PrevAt(k: nat)
      requires RingOk() && k <= NBUF
      ensures prev[if k < NBUF then ring[k] else HEAD] == if k == 0 then HEAD else ring[k - 1]
    {
      var c := [HEAD] + ring;
      assert prev[c[After(c, k)]] == c[k];
    }

    /** The cache-hit branch of bget. */
    method Reference(b: nat)
      requires Valid() && b < NBUF
      modifies this`bufs, this`users
      ensures Valid()
      ensures users == old(users)[b := old(users)[b] + 1]
      ensures bufs == old(bufs)[b := old(bufs)[b].(refcnt := old(bufs)[b].refcnt + 1)]
      ensures View(bufs, disk) == old(View(bufs, disk))
    {
      hide Apply, IsRing, Order;
      ViewTouch(bufs, disk, b, bufs[b].(refcnt := bufs[b].refcnt + 1));
      bufs := bufs[b := bufs[b].(refcnt := bufs[b].refcnt + 1)];
      users := users[b := users[b] + 1];
    }

    /** bget's second scan, from the cold end of the ring. */
    method LeastRecent() returns (b: nat)
      requires Valid()
      ensures b <= NBUF
      ensures b == HEAD ==> forall x :: 0 <= x < NBUF ==> bufs[x].refcnt > 0
      ensures b != HEAD ==> bufs[b].refcnt == 0
      ensures b != HEAD ==>
                exists k :: 0 <= k < NBUF && ring[k] == b && forall i :: k < i < NBUF ==> bufs[ring[i]].refcnt > 0
    {
      hide Apply;
      hide Bcache.CleanOk, Unique;
      ghost var k := NBUF;
      PrevAt(NBUF);
      b := prev[HEAD];
      while b != HEAD
        invariant 0 <= k <= NBUF && b == if k > 0 then ring[k - 1] else HEAD
        invariant forall i :: k <= i < NBUF ==> bufs[ring[i]].refcnt > 0
        decreases k
      {
        if bufs[b].refcnt == 0 {
          assert ring[k - 1] == b;
          return;
        }
        PrevAt(k - 1);
        b := prev[b];
        k := k - 1;
      }
      forall x | 0 <= x < NBUF ensures bufs[x].refcnt > 0 {
        assert x in ring;
      }
    }

    /** The recycling branch of bget. */
    method Recycle(b: nat, blockno: nat)
      requires Valid() && b < NBUF && bufs[b].refcnt == 0 && blockno < |disk| && !Cached(blockno)
      modifies this`bufs, this`users
      ensures Valid()
      ensures users == old(users)[b := old(users)[b] + 1]
      ensures bufs == old(bufs)[b := Buf(false, ROOTDEV, blockno, 1, 0, old(bufs)[b].data)]
      ensures View(bufs, disk) == old(View(bufs, disk))
    {
      hide Apply, IsRing, Order;
      var x := bufs[b].(dev := ROOTDEV, blockno := blockno, valid := false, refcnt := 1);
      ViewRecycle(bufs, disk, b, x);
      bufs := bufs[b := x];
      users := users[b := users[b] + 1];
    }

    /** acquiresleep on a buffer whose lock is free; taken only by a process that holds a reference. */
    method Acquire(b: nat, me: nat)
      requires Valid() && b < NBUF && me != 0 && bufs[b].owner == 0 && users[b] > 0
      modifies this`bufs
      ensures Valid() && bufs == old(bufs)[b := old(bufs)[b].(owner := me)]
      ensures View(bufs, disk) == old(View(bufs, disk))
    {
      hide Apply, IsRing, Order;
      ViewTouch(bufs, disk, b, bufs[b].(owner := me));
      bufs := bufs[b := bufs[b].(owner := me)];
    }

    /** bread after its bget: read the block from disk unless the buffer is valid. */
    method Fill(b: nat, me: nat)
      requires Valid() && b < NBUF && me != 0 && bufs[b].owner == me && bufs[b].dev == ROOTDEV
      modifies this`bufs
      ensures Valid()
      ensures bufs == old(bufs)[b := old(bufs)[b].(valid := true, data := old(View(bufs, disk)[bufs[b].blockno]))]
      ensures View(bufs, disk) == old(View(bufs, disk))
    {
      hide Apply, IsRing, Order;
      if !bufs[b].valid {
        ViewFill(bufs, disk, b);
        bufs := bufs[b := bufs[b].(data := disk[bufs[b].blockno])];
        bufs := bufs[b := bufs[b].(valid := true)];
      }
      LookHit(bufs, disk, b);
    }

    /** bread, when the block's lock is free: a locked buffer with the latest value of the block. */
    method Bread(blockno: nat, me: nat) returns (b: nat)
      requires Valid() && blockno < |disk| && me != 0 && Available(blockno)
      requires forall i :: 0 <= i < NBUF && Caches(bufs[i], blockno) ==> bufs[i].owner == 0
      modifies this`bufs, this`users
      ensures Valid() && b < NBUF
      ensures bufs[b].valid && Caches(bufs[b], blockno) && bufs[b].owner == me
      ensures bufs[b].data == old(View(bufs, disk))[blockno]
      ensures View(bufs, disk) == old(View(bufs, disk))
      ensures users == old(users)[b := old(users)[b] + 1]
      ensures forall i :: 0 <= i < NBUF && i != b ==> bufs[i] == old(bufs)[i]
      ensures if old(Cached(blockno)) then Caches(old(bufs)[b], blockno) else old(bufs)[b].refcnt == 0
      ensures bufs[b].refcnt == old(bufs)[b].refcnt + 1
    {
      hide Apply, IsRing, Order;
      var panicked;
      panicked, b := Bget(blockno);
      Acquire(b, me);
      Fill(b, me);
    }

    /** The holder changes the buffer's contents. */
    method Store(b: nat, me: nat, v: Block)
      requires Valid() && b < NBUF && me != 0 && bufs[b].owner == me && bufs[b].valid
      modifies this`bufs
      ensures Valid() && bufs == old(bufs)[b := old(bufs)[b].(data := v)]
      ensures View(bufs, disk) == old(View(bufs, disk))[bufs[b].blockno := v]
    {
      hide Apply, IsRing, Order;
      ViewStore(bufs, disk, b, v);
      bufs := bufs[b := bufs[b].(data := v)];
    }

    /** bwrite: the one step that changes the disk. */
    method Bwrite(b: nat, me: nat)
      requires Valid() && b < NBUF && me != 0 && bufs[b].owner == me && bufs[b].valid
      modifies this`disk, this`writes
      ensures Valid() && disk == old(disk)[bufs[b].blockno := bufs[b].data]
      ensures writes == old(writes) + [Write(bufs[b].blockno, bufs[b].data)]
      ensures View(bufs, disk) == old(View(bufs, disk))
    {
      ViewWrite(bufs, disk, b);
      disk := disk[bufs[b].blockno := bufs[b].data];
      writes := writes + [Write(bufs[b].blockno, bufs[b].data)];
      assert writes[..|writes| - 1] == old(writes);
    }

    /**
     brelse.  Its caller owes that a changed buffer was logged (so pinned) or
     written: then an unreferenced buffer always equals the disk.
     */
    method Brelse(b: nat, me: nat)
      requires Valid() && b < NBUF && me != 0 && bufs[b].owner == me
      requires bufs[b].valid && pins[b] == 0 ==> bufs[b].data == disk[bufs[b].blockno]
      modifies this`bufs, this`users, this`next, this`prev, this`ring
      ensures Valid()
      ensures bufs == old(bufs)[b := old(bufs)[b].(owner := 0, refcnt := old(bufs)[b].refcnt - 1)]
      ensures users == old(users)[b := old(users)[b] - 1]
      ensures View(bufs, disk) == old(View(bufs, disk))
      ensures bufs[b].refcnt > 0 ==> ring == old(ring)
      ensures bufs[b].refcnt == 0 ==>
                exists k :: 0 <= k < NBUF && old(ring)[k] == b && ring == ToFront(old(ring), k)
    {
      hide Apply, IsRing, Order;
      Unreference(b, me);
      if bufs[b].refcnt == 0 {
        MoveToFront(b);
      }
    }

    /** brelse up to the relinking. */
    method Unreference(b: nat, me: nat)
      requires Valid() && b < NBUF && me != 0 && bufs[b].owner == me
      requires bufs[b].valid && pins[b] == 0 ==> bufs[b].data == disk[bufs[b].blockno]
      modifies this`bufs, this`users
      ensures Valid()
      ensures bufs == old(bufs)[b := old(bufs)[b].(owner := 0, refcnt := old(bufs)[b].refcnt - 1)]
      ensures users == old(users)[b := old(users)[b] - 1]
      ensures View(bufs, disk) == old(View(bufs, disk))
    {
      hide Apply, IsRing, Order;
      ViewTouch(bufs, disk, b, bufs[b].(owner := 0, refcnt := bufs[b].refcnt - 1));
      bufs := bufs[b := bufs[b].(owner := 0)];
      bufs := bufs[b := bufs[b].(refcnt := bufs[b].refcnt - 1)];
      users := users[b := users[b] - 1];
    }

    method MoveToFront(b: nat)
      requires RingOk() && b < NBUF
      modifies this`next, this`prev, this`ring
      ensures RingOk()
      ensures exists k :: 0 <= k < NBUF && old(ring)[k] == b && ring == ToFront(old(ring), k)
    {
      assert b in ring;
      ghost var k :| 0 <= k < NBUF && ring[k] == b;
      ToFrontLinks(ring, next, prev, k);
      ToFrontOrder(ring, k);
      prev := prev[next[b] := prev[b]];
      next := next[prev[b] := next[b]];
      next := next[b := next[HEAD]];
      prev := prev[b := HEAD];
      prev := prev[next[HEAD] := b];
      next := next[HEAD := b];
      ring := ToFront(ring, k);
    }

    method Bpin(b: nat)
      requires Valid() && b < NBUF && bufs[b].valid
      modifies this`bufs, this`pins
      ensures Valid() && pins == old(pins)[b := old(pins)[b] + 1]
      ensures bufs == old(bufs)[b := old(bufs)[b].(refcnt := old(bufs)[b].refcnt + 1)]
      ensures View(bufs, disk) == old(View(bufs, disk))
    {
      hide Apply, IsRing, Order;
      ViewTouch(bufs, disk, b, bufs[b].(refcnt := bufs[b].refcnt + 1));
      bufs := bufs[b := bufs[b].(refcnt := bufs[b].refcnt + 1)];
      pins := pins[b := pins[b] + 1];
    }

    /** bunpin of a buffer whose contents have reached the disk. */
    method Bunpin(b: nat)
      requires Valid() && b < NBUF && pins[b] > 0 && bufs[b].data == disk[bufs[b].blockno]
      modifies this`bufs, this`pins
      ensures Valid() && pins == old(pins)[b := old(pins)[b] - 1]
      ensures bufs == old(bufs)[b := old(bufs)[b].(refcnt := old(bufs)[b].refcnt - 1)]
      ensures View(bufs, disk) == old(View(bufs, disk))
    {
      hide Apply, IsRing, Order;
      ViewTouch(bufs, disk, b, bufs[b].(refcnt := bufs[b].refcnt - 1));
      bufs := bufs[b := bufs[b].(refcnt := bufs[b].refcnt - 1)];
      pins := pins[b := pins[b] - 1];
    }
  }
}
