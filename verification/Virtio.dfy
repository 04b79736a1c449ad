/**
 The virtio disk driver (kernel/virtio_disk.c) and its device, sharing the queue of
 virtio 1.1, section 2.6.  Driver methods are the sections under vdisk_lock; Fetch and
 Complete are the device's steps, which may come between any two of them, completing
 fetched requests in any order.  Valid() is kept by all of them, so it holds in every run.
 */
module Virtio {
  import opened Sequences

  const NUM: nat := 8
  const WRAP: nat := 0x1_0000     // avail and used indices are uint16
  const NEXT: nat := 1            // VRING_DESC_F_NEXT
  const WRITE: nat := 2           // VRING_DESC_F_WRITE

  type Data = seq<nat>

  /** What a descriptor points at: a command header, a buffer's data, or a status byte. */
  datatype Addr = Null | Header(i: nat) | Buffer(b: nat) | Status(i: nat)
  datatype Desc = Desc(addr: Addr, len: nat, flags: nat, next: nat)
  datatype Request = Request(write: bool, sector: nat)

  /** Where a request is: in the avail ring, with the device, in the used ring, or seen by the interrupt handler. */
  datatype Phase = Avail | Device | Used | Handled

  /** A chain of three descriptors, known by the first. */
  datatype Chain = Chain(second: nat, third: nat, buf: nat, req: Request, phase: Phase)
  type Chains = map<nat, Chain>

  // ----- the invariant, part by part -------------------------------------------------------

  /** Descriptors are free or belong to exactly one chain, and chains have three of them. */
  ghost predicate DescsOk(free: seq<bool>, owner: map<nat, nat>, chains: Chains) {
    FreeOk(free, owner) && OwnersOk(owner, chains)
  }

  ghost predicate FreeOk(free: seq<bool>, owner: map<nat, nat>) {
    |free| == NUM && forall i :: 0 <= i < NUM ==> (free[i] <==> i !in owner)
  }

  ghost predicate OwnersOk(owner: map<nat, nat>, chains: Chains) {
    && (forall i :: i in owner ==> i < NUM && owner[i] in chains && PartOf(i, owner[i], chains[owner[i]]))
    && (forall h :: h in chains ==> ThreeOf(owner, h, chains[h]))
  }

  predicate PartOf(i: nat, h: nat, c: Chain) {
    i == h || i == c.second || i == c.third
  }

  ghost predicate ThreeOf(owner: map<nat, nat>, h: nat, c: Chain) {
    && h in owner && c.second in owner && c.third in owner
    && owner[h] == h && owner[c.second] == h && owner[c.third] == h
    && h != c.second && h != c.third && c.second != c.third
  }

  /** The status byte: 0 if and only if the device has carried the request out. */
  function StatusIn(phase: Phase): (status: nat) {
    if phase == Used || phase == Handled then 0 else 0xff
  }

  /** The device finds in memory what the driver asked for. */
  ghost predicate ChainOk(desc: seq<Desc>, ops: seq<Request>, bufs: seq<nat>, status: seq<nat>, h: nat, c: Chain) {
    && |desc| == |ops| == |bufs| == |status| == NUM && h < NUM && c.second < NUM && c.third < NUM
    && desc[h] == Desc(Header(h), 16, NEXT, c.second)
    && desc[c.second] == Desc(Buffer(c.buf), 1024, if c.req.write then NEXT else WRITE + NEXT, c.third)
    && desc[c.third] == Desc(Status(h), 1, WRITE, 0)
    && ops[h] == c.req && bufs[h] == c.buf
    && status[h] == StatusIn(c.phase)
  }

  ghost predicate ChainsOk(desc: seq<Desc>, ops: seq<Request>, bufs: seq<nat>, status: seq<nat>, chains: Chains) {
    && |desc| == |ops| == |bufs| == |status| == NUM
    && forall h :: h in chains ==> ChainOk(desc, ops, bufs, status, h, chains[h])
  }

  /** q lists exactly the chains in one phase, each once. */
  ghost predicate Lists(q: seq<nat>, chains: Chains, phase: Phase) {
    && Distinct(q)
    && (forall h :: h in q ==> h in chains && chains[h].phase == phase)
    && (forall h :: h in chains && chains[h].phase == phase ==> h in q)
  }

  /** Ring entries from index `first` on are q; `next` is the index after them, both modulo 2^16. */
  ghost predicate Ring(ring: seq<nat>, first: nat, next: nat, q: seq<nat>) {
    && |ring| == NUM && |q| <= NUM && first < WRAP && next == (first + |q|) % WRAP
    && forall k :: 0 <= k < |q| ==> ring[(first + k) % NUM] == q[k]
  }

  /** A buffer is in at most one chain, and its disk flag is set until that chain has been handled. */
  ghost predicate BufsOk(chains: Chains, using: map<nat, nat>, busy: set<nat>) {
    && (forall h :: h in chains ==> chains[h].buf in using && using[chains[h].buf] == h)
    && (forall b :: b in using ==> using[b] in chains && chains[using[b]].buf == b)
    && (forall b :: b in busy <==> b in using && chains[using[b]].phase != Handled)
  }

  // ----- lemmas on the parts ---------------------------------------------------------------

  ghost function SetPhase(chains: Chains, h: nat, phase: Phase): (c: Chains)
    requires h in chains
  {
    chains[h := Chain(chains[h].second, chains[h].third, chains[h].buf, chains[h].req, phase)]
  }

  /** Distinct chains are at most NUM. */
  lemma {:induction false} DistinctBound(q: seq<nat>, n: nat)
    requires Distinct(q) && forall h :: h in q ==> h < n
    ensures |q| <= n
    decreases n
  {
    if n == 0 {
      assert forall k :: 0 <= k < |q| ==> q[k] in q;
    } else if n - 1 in q {
      var i :| 0 <= i < |q| && q[i] == n - 1;
      var r := q[..i] + q[i + 1..];
      assert forall h :: h in r ==> h in q;
      forall h | h in r ensures h < n - 1 {
        var k :| 0 <= k < |r| && r[k] == h;
        assert k < i ==> r[k] == q[k];
        assert k >= i ==> r[k] == q[k + 1];
      }
      forall a, b | 0 <= a < b < |r| ensures r[a] != r[b] {
        assert r[a] == if a < i then q[a] else q[a + 1];
        assert r[b] == if b < i then q[b] else q[b + 1];
      }
      DistinctBound(r, n - 1);
    } else {
      DistinctBound(q, n - 1);
    }
  }

  lemma {:induction false} ListsBound(free: seq<bool>, owner: map<nat, nat>, chains: Chains, q: seq<nat>, phase: Phase,
                                      h: nat)
    requires DescsOk(free, owner, chains) && Lists(q, chains, phase) && h in chains && h !in q
    ensures |q| < NUM
  {
    forall g | g in q + [h] ensures g < NUM {
      assert ThreeOf(owner, g, chains[g]);
    }
    DistinctBound(q + [h], NUM);
  }

  lemma {:induction false} DescsPhase(free: seq<bool>, owner: map<nat, nat>, chains: Chains, h: nat, phase: Phase)
    requires DescsOk(free, owner, chains) && h in chains
    ensures DescsOk(free, owner, SetPhase(chains, h, phase))
  {
  }

  lemma {:induction false} ListsPush(q: seq<nat>, chains: Chains, h: nat, from: Phase, to: Phase)
    requires Lists(q, chains, to) && h in chains && chains[h].phase == from && from != to
    ensures Lists(q + [h], SetPhase(chains, h, to), to)
  {
    assert forall g :: g in q + [h] <==> g in q || g == h;
  }

  lemma {:induction false} ListsPop(q: seq<nat>, chains: Chains, from: Phase, to: Phase)
    requires Lists(q, chains, from) && q != [] && from != to
    ensures q[0] in chains && Lists(q[1..], SetPhase(chains, q[0], to), from)
  {
    assert q == [q[0]] + q[1..];
    assert forall g :: g in q <==> g == q[0] || g in q[1..];
    forall i | 0 <= i < |q[1..]| ensures q[1..][i] != q[0] { assert q[1..][i] == q[i + 1]; }
  }

  lemma {:induction false} ListsSkip(q: seq<nat>, chains: Chains, h: nat, from: Phase, to: Phase, phase: Phase)
    requires Lists(q, chains, phase) && h in chains && chains[h].phase == from && phase != from && phase != to
    ensures Lists(q, SetPhase(chains, h, to), phase)
  {
  }

  lemma {:induction false} ChainsPhase(desc: seq<Desc>, ops: seq<Request>, bufs: seq<nat>, status: seq<nat>,
                                       chains: Chains, h: nat, phase: Phase)
    requires ChainsOk(desc, ops, bufs, status, chains) && h in chains
    requires status[h] == StatusIn(phase)
    ensures ChainsOk(desc, ops, bufs, status, SetPhase(chains, h, phase))
  {
  }

  lemma {:induction false} RingPop(ring: seq<nat>, first: nat, next: nat, q: seq<nat>)
    requires Ring(ring, first, next, q) && first != next
    ensures q != [] && ring[first % NUM] == q[0] && Ring(ring, (first + 1) % WRAP, next, q[1..])
  {
    forall k | 0 <= k < |q| - 1 ensures ring[((first + 1) % WRAP + k) % NUM] == q[1..][k] {
      Slot(first, k);
    }
  }

  /** The ring size divides 2^16, so slots do not jump when an index wraps. */
  lemma {:induction false} Slot(first: nat, k: nat)
    requires first < WRAP
    ensures ((first + 1) % WRAP + k) % NUM == (first + (k + 1)) % NUM
  {
  }

  lemma {:induction false} RingPush(ring: seq<nat>, first: nat, next: nat, q: seq<nat>, h: nat)
    requires Ring(ring, first, next, q) && |q| < NUM
    ensures Ring(ring[next % NUM := h], first, (next + 1) % WRAP, q + [h])
  {
    assert next % NUM == (first + |q|) % NUM;
    var ring' := ring[next % NUM := h];
    forall k | 0 <= k < |q| + 1 ensures ring'[(first + k) % NUM] == (q + [h])[k] {
      if k < |q| {
        SlotsApart(first + k, |q| - k);
      }
    }
  }

  lemma {:induction false} SlotsApart(a: nat, d: nat)
    requires 0 < d < NUM
    ensures a % NUM != (a + d) % NUM
  {
  }

  lemma {:induction false} BufsPhase(chains: Chains, using: map<nat, nat>, busy: set<nat>, h: nat, phase: Phase)
    requires BufsOk(chains, using, busy) && h in chains && chains[h].phase != Handled
    ensures phase != Handled ==> BufsOk(SetPhase(chains, h, phase), using, busy)
    ensures phase == Handled ==> BufsOk(SetPhase(chains, h, phase), using, busy - {chains[h].buf})
  {
  }

  // ----- a request is added, a request is removed -------------------------------------------

  ghost function WithOwner(owner: map<nat, nat>, h: nat, b: nat, c: nat): (o: map<nat, nat>) {
    owner[h := h][b := h][c := h]
  }

  lemma {:induction false} OwnersAdd(owner: map<nat, nat>, chains: Chains, h: nat, c: Chain)
    requires OwnersOk(owner, chains) && h < NUM && c.second < NUM && c.third < NUM
    requires h !in owner && c.second !in owner && c.third !in owner && h != c.second && h != c.third
    requires c.second != c.third
    ensures h !in chains && OwnersOk(WithOwner(owner, h, c.second, c.third), chains[h := c])
  {
    var owner' := WithOwner(owner, h, c.second, c.third);
    forall g | g in chains ensures g != h && ThreeOf(owner', g, chains[g]) {
      assert ThreeOf(owner, g, chains[g]);
    }
    assert ThreeOf(owner', h, c);
  }

  lemma {:induction false} DescsAdd(free: seq<bool>, owner: map<nat, nat>, chains: Chains, h: nat, c: Chain)
    requires DescsOk(free, owner, chains) && h < NUM && c.second < NUM && c.third < NUM
    requires free[h] && free[c.second] && free[c.third] && h != c.second && h != c.third && c.second != c.third
    ensures h !in chains
    ensures DescsOk(free[h := false][c.second := false][c.third := false], WithOwner(owner, h, c.second, c.third),
              chains[h := c])
  {
    hide OwnersOk;
    OwnersAdd(owner, chains, h, c);
  }

  lemma {:induction false} ChainsAdd(desc: seq<Desc>, ops: seq<Request>, bufs: seq<nat>, status: seq<nat>,
                                     free: seq<bool>, owner: map<nat, nat>,
                                     chains: Chains, h: nat, c: Chain, desc': seq<Desc>, ops': seq<Request>,
                                     bufs': seq<nat>, status': seq<nat>)
    requires ChainsOk(desc, ops, bufs, status, chains) && DescsOk(free, owner, chains) && h < NUM && free[h]
    requires ChainOk(desc', ops', bufs', status', h, c)
    requires forall i :: 0 <= i < NUM && !free[i] ==>
               desc'[i] == desc[i] && ops'[i] == ops[i] && bufs'[i] == bufs[i] && status'[i] == status[i]
    ensures ChainsOk(desc', ops', bufs', status', chains[h := c])
  {
    forall g | g in chains && g != h ensures ChainOk(desc', ops', bufs', status', g, chains[g]) {
      assert ThreeOf(owner, g, chains[g]) && ChainOk(desc, ops, bufs, status, g, chains[g]);
    }
  }

  lemma {:induction false} ListsAdd(q: seq<nat>, chains: Chains, h: nat, c: Chain, phase: Phase)
    requires Lists(q, chains, phase) && h !in chains
    ensures c.phase == phase ==> Lists(q + [h], chains[h := c], phase)
    ensures c.phase != phase ==> Lists(q, chains[h := c], phase)
  {
    assert forall g :: g in q + [h] <==> g in q || g == h;
  }

  lemma {:induction false} AddBound(free: seq<bool>, owner: map<nat, nat>, chains: Chains, q: seq<nat>, phase: Phase,
                                    h: nat)
    requires DescsOk(free, owner, chains) && Lists(q, chains, phase) && h !in chains && h < NUM
    ensures |q| < NUM
  {
    forall g | g in q + [h] ensures g < NUM {
      assert g in chains ==> ThreeOf(owner, g, chains[g]);
    }
    DistinctBound(q + [h], NUM);
  }

  ghost function WithoutOwner(owner: map<nat, nat>, h: nat, c: Chain): (o: map<nat, nat>) {
    owner - {h, c.second, c.third}
  }

  lemma {:induction false} DescsRemove(free: seq<bool>, owner: map<nat, nat>, chains: Chains, h: nat)
    requires DescsOk(free, owner, chains) && h in chains
    ensures ThreeOf(owner, h, chains[h]) && h < NUM && chains[h].second < NUM && chains[h].third < NUM
    ensures DescsOk(free[h := true][chains[h].second := true][chains[h].third := true],
                    WithoutOwner(owner, h, chains[h]), chains - {h})
  {
    var c := chains[h];
    assert ThreeOf(owner, h, c);
    forall g | g in chains && g != h ensures ThreeOf(WithoutOwner(owner, h, c), g, chains[g]) {
      assert ThreeOf(owner, g, chains[g]);
    }
  }

  /** The descriptors of a free list, from i on. */
  ghost function FreeSet(free: seq<bool>, i: nat): (r: set<nat>)
    requires i <= |free|
    ensures forall k :: k in r <==> i <= k < |free| && free[k]
    decreases |free| - i
  {
    if i == |free| then {} else FreeSet(free, i + 1) + if free[i] then {i} else {}
  }

  lemma {:induction false} AllFree(free: seq<bool>, i: nat)
    requires i <= |free| && forall k :: i <= k < |free| ==> free[k]
    ensures |FreeSet(free, i)| == |free| - i
    decreases |free| - i
  {
    if i < |free| {
      AllFree(free, i + 1);
      assert FreeSet(free, i) == FreeSet(free, i + 1) + {i};
    }
  }

  lemma {:induction false} FreeThree(free: seq<bool>, a: nat, b: nat, c: nat)
    requires a < |free| && b < |free| && c < |free| && a != b && a != c && b != c && !free[a] && !free[b] && !free[c]
    ensures |FreeSet(free[a := true][b := true][c := true], 0)| == |FreeSet(free, 0)| + 3
  {
    hide FreeSet;
    FreeOne(free, a);
    FreeOne(free[a := true], b);
    FreeOne(free[a := true][b := true], c);
  }

  lemma {:induction false} FreeOne(free: seq<bool>, a: nat)
    requires a < |free| && !free[a]
    ensures |FreeSet(free[a := true], 0)| == |FreeSet(free, 0)| + 1
  {
    assert FreeSet(free[a := true], 0) == FreeSet(free, 0) + {a};
  }

  lemma {:induction false} LessOne(m: Chains, h: nat)
    requires h in m
    ensures |m - {h}| == |m| - 1
  {
    assert (m - {h}).Keys == m.Keys - {h};
  }

  lemma {:induction false} NoChains(free: seq<bool>, owner: map<nat, nat>)
    requires DescsOk(free, owner, map[])
    ensures |free| == NUM && |FreeSet(free, 0)| == NUM
  {
    forall i | 0 <= i < |free| ensures free[i] {
      assert i !in owner;
    }
    AllFree(free, 0);
  }

  lemma {:induction false} InUse(free: seq<bool>, owner: map<nat, nat>, chains: Chains, h: nat)
    requires DescsOk(free, owner, chains) && h in chains
    ensures h < NUM && chains[h].second < NUM && chains[h].third < NUM && |free| == NUM
    ensures h != chains[h].second && h != chains[h].third && chains[h].second != chains[h].third
    ensures !free[h] && !free[chains[h].second] && !free[chains[h].third]
  {
    assert ThreeOf(owner, h, chains[h]);
  }

  /** Conservation: free descriptors and three for each request add up to all of them. */
  lemma {:induction false} DescriptorsConserved(free: seq<bool>, owner: map<nat, nat>, chains: Chains)
    requires DescsOk(free, owner, chains)
    ensures |free| == NUM && |FreeSet(free, 0)| + 3 * |chains| == NUM
    decreases |chains|
  {
    hide DescsOk, ThreeOf, FreeSet;
    if chains == map[] {
      NoChains(free, owner);
    } else {
      var h :| h in chains;
      var c := chains[h];
      InUse(free, owner, chains, h);
      DescsRemove(free, owner, chains, h);
      FreeThree(free, h, c.second, c.third);
      LessOne(chains, h);
      DescriptorsConserved(free[h := true][c.second := true][c.third := true], WithoutOwner(owner, h, c), chains - {h});
    }
  }

  /** Three of a set with at least three members. */
  lemma {:induction false} ThreeFree(free: seq<bool>)
    requires |free| == NUM && |FreeSet(free, 0)| >= 3
    ensures exists i, j, k :: 0 <= i < j < k < NUM && free[i] && free[j] && free[k]
  {
    var s := FreeSet(free, 0);
    var a :| a in s;
    assert |s - {a}| >= 2;
    var b :| b in s - {a};
    assert |s - {a} - {b}| >= 1;
    var c :| c in s - {a} - {b};
    var i := if a < b && a < c then a else if b < c then b else c;
    var k := if a > b && a > c then a else if b > c then b else c;
    var j := if a != i && a != k then a else if b != i && b != k then b else c;
    assert free[i] && free[j] && free[k];
  }

  lemma {:induction false} ChainsRemove(desc: seq<Desc>, ops: seq<Request>, bufs: seq<nat>, status: seq<nat>,
                                        free: seq<bool>, owner: map<nat, nat>,
                                        chains: Chains, h: nat, desc': seq<Desc>, bufs': seq<nat>)
    requires ChainsOk(desc, ops, bufs, status, chains) && DescsOk(free, owner, chains) && h in chains
    requires |desc'| == |bufs'| == NUM
    requires forall i :: 0 <= i < NUM && !PartOf(i, h, chains[h]) ==> desc'[i] == desc[i] && bufs'[i] == bufs[i]
    ensures ChainsOk(desc', ops, bufs', status, chains - {h})
  {
    assert ThreeOf(owner, h, chains[h]);
    forall g | g in chains && g != h ensures ChainOk(desc', ops, bufs', status, g, chains[g]) {
      assert ThreeOf(owner, g, chains[g]) && ChainOk(desc, ops, bufs, status, g, chains[g]);
    }
  }

  lemma {:induction false} ListsRemove(q: seq<nat>, chains: Chains, h: nat, phase: Phase)
    requires Lists(q, chains, phase) && h in chains && chains[h].phase != phase
    ensures Lists(q, chains - {h}, phase)
  {
  }

  lemma {:induction false} BufsRemove(chains: Chains, using: map<nat, nat>, busy: set<nat>, h: nat)
    requires BufsOk(chains, using, busy) && h in chains && chains[h].phase == Handled
    ensures BufsOk(chains - {h}, using - {chains[h].buf}, busy)
  {
  }

  lemma {:induction false} BufsAdd(chains: Chains, using: map<nat, nat>, busy: set<nat>, h: nat, c: Chain)
    requires BufsOk(chains, using, busy) && h !in chains && c.buf !in using && c.phase == Avail
    ensures BufsOk(chains[h := c], using[c.buf := h], busy + {c.buf})
  {
  }

  lemma {:induction false} NoThree(free: seq<bool>, idx: seq<nat>)
    requires |free| == NUM && |idx| <= 2 && forall i :: 0 <= i < NUM && free[i] ==> i in idx
    ensures forall i, j, k :: 0 <= i < j < k < NUM ==> !(free[i] && free[j] && free[k])
  {
    assert forall i :: i in idx ==> |idx| > 0 && (i == idx[0] || (|idx| == 2 && i == idx[1]));
  }

  class Disk {
    // shared with the device
    var desc: seq<Desc>
    var ops: seq<Request>
    var availRing: seq<nat>
    var availIdx: nat
    var usedRing: seq<nat>
    var usedIdx: nat
    var status: seq<nat>        // info[i].status
    // the driver's own
    var free: seq<bool>
    var bufs: seq<nat>          // info[i].b, 0 for none
    var seenIdx: nat            // used_idx
    var busy: set<nat>          // the buffers whose disk flag is set
    // the device's own
    var fetchIdx: nat           // how far it has read the avail ring
    var data: map<nat, Data>    // the contents of buffers
    var disk: map<nat, Data>    // the contents of the disk, by sector
    // the requests in flight
    ghost var chains: Chains
    ghost var owner: map<nat, nat>
    ghost var using: map<nat, nat>
    ghost var pending: seq<nat>
    ghost var done: seq<nat>

    ghost predicate Valid()
      reads this`desc, this`ops, this`availRing, this`availIdx, this`usedRing, this`usedIdx, this`status, this`free
      reads this`bufs, this`seenIdx, this`busy, this`fetchIdx, this`chains, this`owner, this`using
      reads this`pending, this`done
    {
      && DescsOk(free, owner, chains) && ChainsOk(desc, ops, bufs, status, chains)
      && Lists(pending, chains, Avail) && Ring(availRing, fetchIdx, availIdx, pending)
      && Lists(done, chains, Used) && Ring(usedRing, seenIdx, usedIdx, done)
      && BufsOk(chains, using, busy)
    }

    /** virtio_disk_init: all descriptors free, both rings empty. */
    constructor ()
      ensures Valid() && chains == map[] && busy == {}
    {
      desc, ops := seq(NUM, i => Desc(Null, 0, 0, 0)), seq(NUM, i => Request(false, 0));
      availRing, availIdx, usedRing, usedIdx := seq(NUM, i => 0), 0, seq(NUM, i => 0), 0;
      status, bufs, seenIdx, busy, fetchIdx := seq(NUM, i => 0), seq(NUM, i => 0), 0, {}, 0;
      data, disk := map[], map[];
      chains, owner, using, pending, done := map[], map[], map[], [], [];
      free := seq(NUM, i => true);
    }

    /** alloc_desc: the first free descriptor, or -1. */
    method AllocDesc() returns (r: int)
      requires |free| == NUM
      modifies this`free
      ensures r == -1 ==> free == old(free) && forall i :: 0 <= i < NUM ==> !free[i]
      ensures r != -1 ==>
                && 0 <= r < NUM && old(free)[r] && free == old(free)[r := false]
                && forall i :: 0 <= i < r ==> !old(free)[i]
    {
      var i := 0;
      while i < NUM
        invariant i <= NUM && free == old(free) && forall k :: 0 <= k < i ==> !free[k]
      {
        if free[i] {
          free := free[i := false];
          return i;
        }
        i := i + 1;
      }
      r := -1;
    }

    /** free_desc: callers only free descriptors in use, so neither panic is reachable. */
    method FreeDesc(i: nat)
      requires |free| == |desc| == NUM && i < NUM && !free[i]
      modifies this`free, this`desc
      ensures free == old(free)[i := true] && desc == old(desc)[i := Desc(Null, 0, 0, 0)]
    {
      desc := desc[i := Desc(Null, 0, 0, 0)];
      free := free[i := true];
    }

    /** alloc3_desc: three free descriptors, or none if no three are free. */
    method Alloc3Desc() returns (r: int, idx: seq<nat>)
      requires |free| == |desc| == NUM
      modifies this`free, this`desc
      ensures |free| == |desc| == NUM && (r == 0 || r == -1)
      ensures r == 0 ==>
                && |idx| == 3 && idx[0] < NUM && idx[1] < NUM && idx[2] < NUM
                && old(free)[idx[0]] && old(free)[idx[1]] && old(free)[idx[2]]
                && idx[0] != idx[1] && idx[0] != idx[2] && idx[1] != idx[2]
                && free == old(free)[idx[0] := false][idx[1] := false][idx[2] := false]
      ensures r == -1 ==> free == old(free)
      ensures r == -1 ==> forall i, j, k :: 0 <= i < j < k < NUM ==> !(free[i] && free[j] && free[k])
      ensures forall i :: 0 <= i < NUM && !old(free)[i] ==> desc[i] == old(desc)[i]
    {
      idx := [];
      while |idx| < 3
        invariant |idx| <= 3 && |free| == NUM && desc == old(desc)
        invariant forall k :: 0 <= k < |idx| ==> idx[k] < NUM && old(free)[idx[k]]
        invariant forall i, j :: 0 <= i < j < |idx| ==> idx[i] != idx[j]
        invariant forall i :: 0 <= i < NUM ==> (free[i] <==> old(free)[i] && i !in idx)
      {
        var d := AllocDesc();
        if d < 0 {
          GiveBack(idx, old(free), old(desc));
          return -1, idx;
        }
        idx := idx + [d];
      }
      assert forall i :: i in idx <==> i == idx[0] || i == idx[1] || i == idx[2];
      r := 0;
    }

    /** alloc3_desc's inner loop: undo the allocations made so far. */
    method GiveBack(idx: seq<nat>, ghost free0: seq<bool>, ghost desc0: seq<Desc>)
      requires |free| == |desc| == |free0| == NUM && |idx| <= 2 && desc == desc0
      requires forall k :: 0 <= k < |idx| ==> idx[k] < NUM && free0[idx[k]]
      requires forall i, j :: 0 <= i < j < |idx| ==> idx[i] != idx[j]
      requires forall i :: 0 <= i < NUM ==> !free[i] && (free0[i] ==> i in idx)
      modifies this`free, this`desc
      ensures free == free0 && |desc| == NUM && forall i :: 0 <= i < NUM && !free0[i] ==> desc[i] == desc0[i]
      ensures forall i, j, k :: 0 <= i < j < k < NUM ==> !(free[i] && free[j] && free[k])
    {
      var j := 0;
      while j < |idx|
        invariant j <= |idx| && |free| == |desc| == NUM
        invariant forall i :: 0 <= i < NUM ==> (free[i] <==> i in idx[..j])
        invariant forall i :: 0 <= i < NUM && !free0[i] ==> desc[i] == desc0[i]
      {
        assert idx[j] !in idx[..j];
        assert idx[..j + 1] == idx[..j] + [idx[j]];
        FreeDesc(idx[j]);
        j := j + 1;
      }
      assert idx[..|idx|] == idx;
      assert free == free0;
      NoThree(free, idx);
    }

    /**
     virtio_disk_rw up to its wait: put a request for buffer b in the avail ring, or
     fail if no three descriptors are free (the caller sleeps and tries again).
     */
    method Submit(b: nat, blockno: nat, write: bool) returns (ok: bool, head: nat)
      requires Valid() && b !in using && blockno < 0x1_0000_0000
      modifies this
      ensures Valid() && data == old(data) && disk == old(disk) && done == old(done)
      ensures !ok ==> chains == old(chains) && busy == old(busy) && pending == old(pending)
      ensures !ok ==> forall i, j, k :: 0 <= i < j < k < NUM ==> !(free[i] && free[j] && free[k])
      ensures ok ==>
                && head !in old(chains) && head in chains && chains == old(chains)[head := chains[head]]
                && chains[head].buf == b && chains[head].phase == Avail
                && chains[head].req == Request(write, blockno * 2 % 0x1_0000_0000)
                && busy == old(busy) + {b} && pending == old(pending) + [head]
    {
      hide DescsOk, ChainsOk, Lists, Ring, BufsOk;
      var sector := blockno * 2 % 0x1_0000_0000;
      ghost var free0, desc0 := free, desc;
      Sizes();
      var r, idx := Alloc3Desc();
      head := 0;
      if r != 0 {
        SameChains(desc0, desc);
        return false, 0;
      }
      head := idx[0];
      Send(head, idx[1], idx[2], b, Request(write, sector), free0, desc0);
      ok := true;
    }

    /** Format the request, record its buffer, and put it in the avail ring. */
    method Send(h: nat, second: nat, third: nat, b: nat, req: Request, ghost free0: seq<bool>, ghost desc0: seq<Desc>)
      requires DescsOk(free0, owner, chains) && ChainsOk(desc0, ops, bufs, status, chains)
      requires BufsOk(chains, using, busy) && b !in using
      requires Lists(pending, chains, Avail) && Ring(availRing, fetchIdx, availIdx, pending)
      requires Lists(done, chains, Used)
      requires |free0| == |desc| == |desc0| == |ops| == |bufs| == |status| == NUM && h < NUM && second < NUM
      requires third < NUM
      requires free0[h] && free0[second] && free0[third] && h != second && h != third && second != third
      requires free == free0[h := false][second := false][third := false]
      requires forall i :: 0 <= i < NUM && !free0[i] ==> desc[i] == desc0[i]
      modifies this`desc, this`ops, this`bufs, this`status, this`busy, this`availRing, this`availIdx, this`chains
      modifies this`owner, this`using, this`pending
      ensures DescsOk(free, owner, chains) && ChainsOk(desc, ops, bufs, status, chains) && BufsOk(chains, using, busy)
      ensures Lists(pending, chains, Avail) && Ring(availRing, fetchIdx, availIdx, pending) && Lists(done, chains, Used)
      ensures h !in old(chains) && chains == old(chains)[h := Chain(second, third, b, req, Avail)]
      ensures busy == old(busy) + {b} && pending == old(pending) + [h]
    {
      hide DescsOk, ChainsOk, ChainOk, Lists, Ring, BufsOk, WithOwner;
      ghost var c := Chain(second, third, b, req, Avail);
      Sends(h, c, free0);
      Format(h, second, third, b, req);
      ChainsAdd(desc0, old(ops), old(bufs), old(status), free0, owner, chains, h, c, desc, ops, bufs, status);
      busy := busy + {b};
      owner, chains, using := WithOwner(owner, h, second, third), chains[h := c], using[b := h];
      Enqueue(h);
    }

    /** A request may be added on three free descriptors. */
    lemma {:induction false} Sends(h: nat, c: Chain, free0: seq<bool>)
      requires DescsOk(free0, owner, chains) && BufsOk(chains, using, busy) && c.buf !in using && c.phase == Avail
      requires Lists(pending, chains, Avail) && Lists(done, chains, Used)
      requires |free0| == NUM && h < NUM && c.second < NUM && c.third < NUM
      requires free0[h] && free0[c.second] && free0[c.third] && h != c.second && h != c.third && c.second != c.third
      ensures h !in chains && |pending| < NUM
      ensures DescsOk(free0[h := false][c.second := false][c.third := false], WithOwner(owner, h, c.second, c.third),
                chains[h := c])
      ensures Lists(pending + [h], chains[h := c], Avail) && Lists(done, chains[h := c], Used)
      ensures BufsOk(chains[h := c], using[c.buf := h], busy + {c.buf})
    {
      hide DescsOk, Lists, BufsOk, WithOwner;
      DescsAdd(free0, owner, chains, h, c);
      AddBound(free0, owner, chains, pending, Avail, h);
      ListsAdd(pending, chains, h, c, Avail);
      ListsAdd(done, chains, h, c, Used);
      BufsAdd(chains, using, busy, h, c);
    }

    /** Format the three descriptors, as section 5.2.6 of virtio 1.1 wants them. */
    method Format(h: nat, second: nat, third: nat, b: nat, req: Request)
      requires |desc| == |ops| == |bufs| == |status| == NUM && h < NUM && second < NUM && third < NUM
      requires h != second && h != third && second != third
      modifies this`desc, this`ops, this`bufs, this`status
      ensures ChainOk(desc, ops, bufs, status, h, Chain(second, third, b, req, Avail))
      ensures forall i :: 0 <= i < NUM && i != h && i != second && i != third ==>
                && desc[i] == old(desc)[i] && ops[i] == old(ops)[i]
                && bufs[i] == old(bufs)[i] && status[i] == old(status)[i]
    {
      ops := ops[h := req];
      desc := desc[h := Desc(Header(h), 16, NEXT, second)];
      desc := desc[second := Desc(Buffer(b), 1024, if req.write then NEXT else WRITE + NEXT, third)];
      status := status[h := 0xff];
      desc := desc[third := Desc(Status(h), 1, WRITE, 0)];
      bufs := bufs[h := b];
    }

    /** Tell the device: add h to the avail ring. */
    method Enqueue(h: nat)
      requires Ring(availRing, fetchIdx, availIdx, pending) && |pending| < NUM
      modifies this`availRing, this`availIdx, this`pending
      ensures Ring(availRing, fetchIdx, availIdx, pending) && pending == old(pending) + [h]
    {
      RingPush(availRing, fetchIdx, availIdx, pending, h);
      availRing := availRing[availIdx % NUM := h];
      availIdx := (availIdx + 1) % WRAP;
      pending := pending + [h];
    }

    /** The device takes the next request from the avail ring. */
    method Fetch() returns (h: nat)
      requires Valid() && fetchIdx != availIdx
      modifies this`fetchIdx, this`chains, this`pending
      ensures Valid() && old(pending) == [h] + pending && h in old(chains) && old(chains)[h].phase == Avail
      ensures chains == SetPhase(old(chains), h, Device)
    {
      hide DescsOk, ChainsOk, Lists, Ring, BufsOk;
      RingPop(availRing, fetchIdx, availIdx, pending);
      RingSize(availRing, fetchIdx, availIdx, pending);
      ListsPop(pending, chains, Avail, Device);
      h := availRing[fetchIdx % NUM];
      Phased(pending, Avail, h);
      ListsSkip(done, chains, h, Avail, Device, Used);
      DescsPhase(free, owner, chains, h, Device);
      ChainAt(h);
      ChainsPhase(desc, ops, bufs, status, chains, h, Device);
      BufsPhase(chains, using, busy, h, Device);
      fetchIdx := (fetchIdx + 1) % WRAP;
      chains, pending := SetPhase(chains, h, Device), pending[1..];
    }

    /**
     The device completes any request it has fetched, found through its descriptors:
     it moves the data, writes status 0 and adds the head to the used ring.
     */
    method Complete(h: nat)
      requires Valid() && h in chains && chains[h].phase == Device
      modifies this`status, this`usedRing, this`usedIdx, this`data, this`disk, this`chains, this`done
      ensures Valid() && done == old(done) + [h] && chains == SetPhase(old(chains), h, Used)
      ensures old(chains[h]).req.write ==>
                && data == old(data)
                && disk == old(disk)[old(chains[h]).req.sector := Contents(old(data), old(chains[h]).buf)]
      ensures !old(chains[h]).req.write ==>
                && disk == old(disk)
                && data == old(data)[old(chains[h]).buf := Contents(old(disk), old(chains[h]).req.sector)]
    {
      hide DescsOk, ChainsOk, ChainOk, Lists, Ring, BufsOk, SetPhase;
      Completes(h);
      Transfer(h, chains[h]);
      chains := SetPhase(chains, h, Used);
      Report(h);
    }

    /** The request h may move from the device to the used ring. */
    lemma {:induction false} Completes(h: nat)
      requires Valid() && h in chains && chains[h].phase == Device
      ensures ChainOk(desc, ops, bufs, status, h, chains[h]) && |done| < NUM
      ensures Lists(done + [h], SetPhase(chains, h, Used), Used) && Lists(pending, SetPhase(chains, h, Used), Avail)
      ensures DescsOk(free, owner, SetPhase(chains, h, Used)) && BufsOk(SetPhase(chains, h, Used), using, busy)
      ensures h < |status| && ChainsOk(desc, ops, bufs, status[h := 0], SetPhase(chains, h, Used))
    {
      hide DescsOk, ChainsOk, ChainOk, Lists, Ring, BufsOk, SetPhase;
      ChainAt(h);
      NotListed(done, Used, h);
      ListsBound(free, owner, chains, done, Used, h);
      ListsPush(done, chains, h, Device, Used);
      ListsSkip(pending, chains, h, Device, Used, Avail);
      DescsPhase(free, owner, chains, h, Used);
      BufsPhase(chains, using, busy, h, Used);
      StatusWritten(h);
    }

    /** Tell the driver: add h to the used ring. */
    method Report(h: nat)
      requires Ring(usedRing, seenIdx, usedIdx, done) && |done| < NUM
      modifies this`usedRing, this`usedIdx, this`done
      ensures Ring(usedRing, seenIdx, usedIdx, done) && done == old(done) + [h]
    {
      RingPush(usedRing, seenIdx, usedIdx, done, h);
      usedRing := usedRing[usedIdx % NUM := h];
      usedIdx := (usedIdx + 1) % WRAP;
      done := done + [h];
    }

    /** The device walks the chain and does what it says. */
    method Transfer(h: nat, ghost c: Chain)
      requires ChainOk(desc, ops, bufs, status, h, c)
      modifies this`status, this`data, this`disk
      ensures h < NUM && |old(status)| == NUM && status == old(status)[h := 0]
      ensures c.req.write ==> data == old(data) && disk == old(disk)[c.req.sector := Contents(old(data), c.buf)]
      ensures !c.req.write ==> disk == old(disk) && data == old(data)[c.buf := Contents(old(disk), c.req.sector)]
    {
      var d0 := desc[h];
      var d1 := desc[d0.next];
      var d2 := desc[d1.next];
      var req := ops[d0.addr.i];
      if req.write {
        disk := disk[req.sector := Contents(data, d1.addr.b)];
      } else {
        data := data[d1.addr.b := Contents(disk, req.sector)];
      }
      status := status[d2.addr.i := 0];
    }

    /** One turn of virtio_disk_intr's loop, which wakes who waits for b; the status is 0, so it does not panic. */
    method Handle() returns (b: nat, ghost h: nat)
      requires Valid() && seenIdx != usedIdx
      modifies this`busy, this`seenIdx, this`chains, this`done
      ensures Valid() && old(done) == [h] + done && h in old(chains) && old(chains)[h].phase == Used
      ensures chains == SetPhase(old(chains), h, Handled) && busy == old(busy) - {chains[h].buf}
      ensures b == chains[h].buf && b in old(busy)
    {
      hide DescsOk, Lists, Ring, BufsOk, ChainsOk;
      RingPop(usedRing, seenIdx, usedIdx, done);
      RingSize(usedRing, seenIdx, usedIdx, done);
      ListsPop(done, chains, Used, Handled);
      var id := usedRing[seenIdx % NUM];
      h := id;
      Phased(done, Used, h);
      ChainAt(h);
      assert status[id] == 0;
      b := bufs[id];
      BusyAt(h);
      busy := busy - {b};
      ListsSkip(pending, chains, h, Used, Handled, Avail);
      DescsPhase(free, owner, chains, h, Handled);
      ChainsPhase(desc, ops, bufs, status, chains, h, Handled);
      BufsPhase(chains, using, old(busy), h, Handled);
      seenIdx := (seenIdx + 1) % WRAP;
      chains, done := SetPhase(chains, h, Handled), done[1..];
    }

    /** virtio_disk_intr: handles every entry of the used ring, each once, and wakes exactly who waits for these. */
    method Intr() returns (woken: set<nat>)
      requires Valid()
      modifies this`busy, this`seenIdx, this`chains, this`done
      ensures Valid() && done == [] && seenIdx == usedIdx
      ensures chains.Keys == old(chains.Keys)
      ensures forall h :: h in chains ==>
                chains[h] == (if h in old(done) then SetPhase(old(chains), h, Handled) else old(chains))[h]
      ensures woken <= old(busy) && busy == old(busy) - woken
    {
      hide Valid;
      ghost var i := 0;
      woken := {};
      DoneFirst();
      while seenIdx != usedIdx
        invariant Valid() && i <= |old(done)| && done == old(done)[i..]
        invariant chains.Keys == old(chains.Keys) && woken <= old(busy) && busy == old(busy) - woken
        invariant forall h :: h in chains ==>
                    chains[h] == (if h in old(done)[..i] then SetPhase(old(chains), h, Handled) else old(chains))[h]
        decreases |done|
      {
        var b;
        ghost var h;
        b, h := Handle();
        woken := woken + {b};
        DoneFirst();
        assert old(done)[..i + 1] == old(done)[..i] + [h];
        i := i + 1;
      }
      DoneFirst();
      assert old(done)[..i] == old(done);
    }

    /** b->disk is 0 once the interrupt handler has seen the request. */
    lemma {:induction false} NotBusy(h: nat)
      requires Valid() && h in chains && chains[h].buf !in busy
      ensures chains[h].phase == Handled
    {
      hide DescsOk, Lists, Ring, ChainsOk;
    }

    /** The end of virtio_disk_rw, once b->disk is 0: the request's three descriptors are free again. */
    method Finish(b: nat, head: nat)
      requires Valid() && head in chains && chains[head].buf == b && b !in busy
      modifies this`bufs, this`free, this`desc, this`chains, this`owner, this`using
      ensures Valid() && chains == old(chains) - {head} && using == old(using) - {b}
      ensures forall i :: 0 <= i < NUM ==> (free[i] <==> old(free)[i] || PartOf(i, head, old(chains)[head]))
    {
      hide DescsOk, Lists, Ring, BufsOk, ChainsOk, WithoutOwner;
      ghost var c := chains[head];
      CanRemove(head);
      RemovableParts(head);
      bufs := bufs[head := 0];
      FreeChain(head, c.second, c.third);
      Removed(head, old(desc), old(bufs), old(free));
      owner, chains, using := WithoutOwner(owner, head, c), chains - {head}, using - {b};
    }

    /** What is left when the handled request h goes. */
    ghost predicate Removable(h: nat)
      reads this
      requires h in chains
    {
      && h < NUM && chains[h].second < NUM && chains[h].third < NUM && |free| == NUM
      && DescsOk(free[h := true][chains[h].second := true][chains[h].third := true], WithoutOwner(owner, h, chains[h]),
                 chains - {h})
      && Lists(pending, chains - {h}, Avail) && Lists(done, chains - {h}, Used)
      && BufsOk(chains - {h}, using - {chains[h].buf}, busy)
    }

    lemma {:induction false} CanRemove(h: nat)
      requires Valid() && h in chains && chains[h].buf !in busy
      ensures Removable(h)
    {
      hide DescsOk, Lists, Ring, BufsOk, ChainsOk, WithoutOwner;
      BusyAt(h);
      DescsRemove(free, owner, chains, h);
      InUse(free, owner, chains, h);
      ListsRemove(pending, chains, h, Avail);
      ListsRemove(done, chains, h, Used);
      BufsRemove(chains, using, busy, h);
    }

    /** Its descriptors are a chain of three in use. */
    lemma {:induction false} RemovableParts(h: nat)
      requires Valid() && h in chains
      ensures h < NUM && chains[h].second < NUM && chains[h].third < NUM && |free| == |desc| == |bufs| == NUM
      ensures h != chains[h].second && h != chains[h].third && chains[h].second != chains[h].third
      ensures !free[h] && !free[chains[h].second] && !free[chains[h].third]
      ensures desc[h].flags % 2 == 1 && desc[h].next == chains[h].second
      ensures desc[chains[h].second].flags % 2 == 1 && desc[chains[h].second].next == chains[h].third
      ensures desc[chains[h].third].flags % 2 == 0
    {
      hide DescsOk, Lists, Ring, BufsOk, ChainsOk;
      ChainAt(h);
      InUse(free, owner, chains, h);
    }

    lemma {:induction false} Removed(h: nat, desc0: seq<Desc>, bufs0: seq<nat>, free0: seq<bool>)
      requires h in chains && |bufs0| == NUM && h < NUM && ChainsOk(desc0, ops, bufs0, status, chains)
      requires DescsOk(free0, owner, chains)
      requires |desc| == NUM && bufs == bufs0[h := 0]
      requires forall i :: 0 <= i < NUM && i != h && i != chains[h].second && i != chains[h].third ==>
                 desc[i] == desc0[i]
      ensures ChainsOk(desc, ops, bufs, status, chains - {h})
    {
      hide DescsOk, ChainsOk;
      ChainsRemove(desc0, ops, bufs0, status, free0, owner, chains, h, desc, bufs);
    }

    /** free_chain, on a chain of three: follows next until a descriptor without NEXT. */
    method FreeChain(i0: nat, ghost second: nat, ghost third: nat)
      requires |free| == |desc| == NUM && i0 < NUM && second < NUM && third < NUM
      requires i0 != second && i0 != third && second != third && !free[i0] && !free[second] && !free[third]
      requires desc[i0].flags % 2 == 1 && desc[i0].next == second
      requires desc[second].flags % 2 == 1 && desc[second].next == third && desc[third].flags % 2 == 0
      modifies this`free, this`desc
      ensures free == old(free)[i0 := true][second := true][third := true]
      ensures |desc| == NUM
      ensures forall i :: 0 <= i < NUM && i != i0 && i != second && i != third ==> desc[i] == old(desc)[i]
    {
      var i := i0;
      ghost var n := 0;
      while true
        invariant n <= 2 && i == (if n == 0 then i0 else if n == 1 then second else third)
        invariant |free| == |desc| == NUM
        invariant free == (if n == 0 then old(free) else if n == 1 then old(free)[i0 := true]
                             else old(free)[i0 := true][second := true])
        invariant desc[third] == old(desc[third]) && (n <= 1 ==> desc[second] == old(desc[second]))
        invariant (n == 0 ==> desc[i0] == old(desc[i0]))
        invariant forall k :: 0 <= k < NUM && k != i0 && k != second && k != third ==> desc[k] == old(desc)[k]
        decreases 2 - n
      {
        var flag, nxt := desc[i].flags, desc[i].next;
        FreeDesc(i);
        if flag % 2 == 1 {
          i := nxt;
          n := n + 1;
        } else {
          break;
        }
      }
    }

    lemma {:induction false} Sizes()
      requires Valid()
      ensures |free| == |desc| == |ops| == |bufs| == |status| == NUM
    {
    }

    lemma {:induction false} RingSize(ring: seq<nat>, first: nat, next: nat, q: seq<nat>)
      requires Ring(ring, first, next, q)
      ensures |ring| == NUM
    {
    }

    /** A failed allocation touched free descriptors only. */
    lemma {:induction false} SameChains(desc0: seq<Desc>, desc1: seq<Desc>)
      requires DescsOk(free, owner, chains) && ChainsOk(desc0, ops, bufs, status, chains) && |desc1| == NUM
      requires forall i :: 0 <= i < NUM && !free[i] ==> desc1[i] == desc0[i]
      ensures ChainsOk(desc1, ops, bufs, status, chains)
    {
      forall g | g in chains ensures ChainOk(desc1, ops, bufs, status, g, chains[g]) {
        assert ThreeOf(owner, g, chains[g]) && ChainOk(desc0, ops, bufs, status, g, chains[g]);
      }
    }

    lemma {:induction false} Phased(q: seq<nat>, phase: Phase, h: nat)
      requires Lists(q, chains, phase) && h in q
      ensures h in chains && chains[h].phase == phase
    {
    }

    lemma {:induction false} NotListed(q: seq<nat>, phase: Phase, h: nat)
      requires Lists(q, chains, phase) && h in chains && chains[h].phase != phase
      ensures h !in q
    {
    }

    /** At most two requests are in flight, and if no three descriptors are free, two are. */
    lemma {:induction false} InFlight()
      requires Valid()
      ensures |free| == NUM && |chains| <= 2
      ensures |chains| < 2 ==> exists i, j, k :: 0 <= i < j < k < NUM && free[i] && free[j] && free[k]
    {
      hide DescsOk, ChainsOk, Lists, Ring, BufsOk;
      DescriptorsConserved(free, owner, chains);
      if |chains| < 2 {
        ThreeFree(free);
      }
    }

    lemma {:induction false} ChainAt(h: nat)
      requires ChainsOk(desc, ops, bufs, status, chains) && h in chains
      ensures ChainOk(desc, ops, bufs, status, h, chains[h])
    {
    }

    lemma {:induction false} BusyAt(h: nat)
      requires BufsOk(chains, using, busy) && h in chains
      ensures chains[h].buf in busy <==> chains[h].phase != Handled
    {
    }

    lemma {:induction false} StatusWritten(h: nat)
      requires ChainsOk(desc, ops, bufs, status, chains) && h in chains
      ensures h < |status| && ChainsOk(desc, ops, bufs, status[h := 0], SetPhase(chains, h, Used))
    {
      assert ChainOk(desc, ops, bufs, status, h, chains[h]);
      forall g | g in chains ensures ChainOk(desc, ops, bufs, status[h := 0], g, SetPhase(chains, h, Used)[g]) {
        assert ChainOk(desc, ops, bufs, status, g, chains[g]);
      }
    }

    /** The used ring has an entry exactly when the indices differ. */
    lemma {:induction false} DoneFirst()
      requires Valid()
      ensures seenIdx != usedIdx <==> done != []
    {
    }
  }

  function Contents(m: map<nat, Data>, k: nat): (d: Data) {
    if k in m then m[k] else []
  }
}
