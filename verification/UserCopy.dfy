/**
 copyin and copyout (kernel/vm.c): moving bytes between the kernel and user
 virtual addresses, page by page through walkaddr.
 */
module UserCopy {
  import opened PageTable
  import opened Sequences
  import opened Vm

  /** va lies on a page that the user may access. */
  ghost predicate UserAt(view: map<nat, nat>, va: nat) {
    va / PGSIZE in view && UserFlag(Flags(view[va / PGSIZE]))
  }

  /** All user pages are the space's own frames (trampoline and trapframe are not user pages). */
  ghost predicate UserOwned(pg: Pages, s: Space) {
    forall v :: v in View(pg, s.root) && UserFlag(Flags(View(pg, s.root)[v])) ==> OwnsAt(View(pg, s.root), s.frames, v)
  }

  /** uvmalloc and uvmcopy keep it: what they add is owned, and nothing else changes. */
  lemma {:induction false} AddedUserOwned(pg0: Pages, s0: Space, pg: Pages, s: Space, first: nat, i: nat,
                                          perm: nat -> nat, content: nat -> seq<nat>)
    requires UserOwned(pg0, s0) && Added(View(pg0, s0.root), s0.frames, pg, s, first, i, perm, content)
    ensures UserOwned(pg, s)
  {
    hide View, UserFlag, Flags, Target, PlacedAt;
    AddedOwns(View(pg0, s0.root), s0.frames, pg, s, first, i, perm, content);
  }

  /** copyout writes the space's own frames only. */
  lemma {:induction false} PatchedMoves(pg: Pages, free: seq<nat>, pg': Pages, s: Space, lo: nat, data: seq<nat>)
    requires Patched(pg, pg', s, lo, data) && ToSet(free) !! PagesOf(s)
    ensures Moved(pg, free, s, pg', free, s)
  {
    hide Written;
  }

  /** The byte that a user address stands for. */
  ghost function ByteAt(pg: Pages, view: map<nat, nat>, va: nat): (b: nat) {
    if va / PGSIZE in view && IsData(pg, Target(view[va / PGSIZE]))
    then pg[Target(view[va / PGSIZE])].bytes[va % PGSIZE]
    else 0
  }

  ghost function UserBytes(pg: Pages, view: map<nat, nat>, va: nat, n: nat): (b: seq<nat>)
    ensures |b| == n && forall x :: va <= x < va + n ==> b[x - va] == ByteAt(pg, view, x)
  {
    if n == 0 then [] else UserBytes(pg, view, va, n - 1) + [ByteAt(pg, view, va + n - 1)]
  }

  function Patch(b: seq<nat>, off: nat, data: seq<nat>): (b': seq<nat>)
    requires off + |data| <= |b|
    ensures |b'| == |b|
    ensures forall j :: 0 <= j < |b| ==> b'[j] == if off <= j < off + |data| then data[j - off] else b[j]
  {
    b[..off] + data + b[off + |data|..]
  }

  /** What the byte of frame page number v, offset j, is after writing data at lo. */
  ghost function Written(lo: nat, data: seq<nat>, x: nat, b: nat): (b': nat) {
    if lo <= x < lo + |data| then data[x - lo] else b
  }

  /** Exactly the bytes at virtual addresses lo .. lo + |data| were replaced, in the space's frames. */
  ghost predicate Patched(pg: Pages, pg': Pages, s: Space, lo: nat, data: seq<nat>) {
    && pg'.Keys == pg.Keys
    && (forall a :: a in pg && a !in s.frames ==> pg'[a] == pg[a])
    && (forall a :: a in s.frames ==> IsData(pg, a) && IsData(pg', a))
    && (forall a, j :: a in s.frames && 0 <= j < PGSIZE ==>
          pg'[a].bytes[j] == Written(lo, data, s.frames[a] * PGSIZE + j, pg[a].bytes[j]))
  }

  lemma {:induction false} PatchedNone(pg: Pages, s: Space, lo: nat)
    requires SpaceOk(pg, s)
    ensures Patched(pg, pg, s, lo, [])
  {
    hide TreeOk, Lookup, Target;
  }

  /** One more page's worth, written contiguously after what was written. */
  lemma {:induction false} PatchedMore(pg: Pages, pg1: Pages, s: Space, lo: nat, data: seq<nat>, v: nat, pa: nat,
                                       more: seq<nat>, pg2: Pages)
    requires Patched(pg, pg1, s, lo, data) && pa in s.frames && s.frames[pa] == v
    requires forall a :: a in s.frames && s.frames[a] == v ==> a == pa
    requires (lo + |data|) / PGSIZE == v && (lo + |data|) % PGSIZE + |more| <= PGSIZE
    requires IsData(pg1, pa) && pg2 == pg1[pa := Data(Patch(pg1[pa].bytes, (lo + |data|) % PGSIZE, more))]
    ensures Patched(pg, pg2, s, lo, data + more)
  {
    var x, off := lo + |data|, (lo + |data|) % PGSIZE;
    assert x == v * PGSIZE + off;
    forall a, j | a in s.frames && 0 <= j < PGSIZE
      ensures pg2[a].bytes[j] == Written(lo, data + more, s.frames[a] * PGSIZE + j, pg[a].bytes[j])
    {
      if a != pa {
        OtherPage(s.frames[a], v, j, off, |more|);
      }
    }
  }

  lemma {:induction false} OtherPage(u: nat, v: nat, j: nat, off: nat, n: nat)
    requires u != v && j < PGSIZE && off + n <= PGSIZE
    ensures !(v * PGSIZE + off <= u * PGSIZE + j < v * PGSIZE + off + n)
  {
    if u < v {
      assert u * PGSIZE + PGSIZE <= v * PGSIZE;
    } else {
      assert v * PGSIZE + PGSIZE <= u * PGSIZE;
    }
  }

  /** Writing into a frame leaves tables, map and frames as they were. */
  lemma {:induction false} PokeSpace(pg: Pages, s: Space, pa: nat, bytes: seq<nat>)
    requires SpaceOk(pg, s) && pa in s.frames && |bytes| == PGSIZE
    ensures SpaceOk(pg[pa := Data(bytes)], s) && View(pg[pa := Data(bytes)], s.root) == View(pg, s.root)
  {
    hide TreeOk, Lookup, View, Target;
    var pg' := pg[pa := Data(bytes)];
    forall a | a in s.tabs ensures a in pg && a != pa {
      assert a in PagesOf(s);
      TableInPages(pg, s, a);
    }
    TreeFrame(pg, pg', s.root, s.tabs);
    ViewSame(pg, pg', s.root);
  }

  lemma {:induction false} OwnerUnique(pg: Pages, s: Space, pa: nat)
    requires SpaceOk(pg, s) && pa in s.frames
    ensures forall a :: a in s.frames && s.frames[a] == s.frames[pa] ==> a == pa
  {
    hide TreeOk, Target, Lookup;
    forall a | a in s.frames && s.frames[a] == s.frames[pa] ensures a == pa {
      assert Target(Lookup(pg, s.root, s.frames[a])) == a;
    }
  }

  /** walkaddr: the frame under a user address, or 0 if the user has no such page. */
  method Walkaddr(m: Mem, root: nat, va: nat, ghost s: Space) returns (pa: nat)
    requires m.Holds(s) && root == s.root && UserOwned(m.pages, s)
    modifies m
    ensures m.Holds(s) && m.pages == old(m.pages) && m.free == old(m.free)
    ensures pa != 0 <==> UserAt(View(m.pages, root), va)
    ensures pa != 0 ==>
              pa == Target(View(m.pages, root)[va / PGSIZE]) && OwnsAt(View(m.pages, root), s.frames, va / PGSIZE)
  {
    hide Lookup, FreeList, TreeOk, Px0, Target, View;
    ViewBound(m.pages, root);
    if va >= MAXVA {
      return 0;
    }
    ViewIff(m.pages, root, va / PGSIZE);
    var t;
    ghost var s1;
    t, s1 := m.Walk(root, va, false, s);
    if t == 0 {
      return 0;
    }
    LookupAt(m.pages, root, s.tabs, va / PGSIZE, t);
    PxVa(va);
    var pte := m.pages[t].ptes[Px(0, va)];
    if !IsValid(pte) {
      return 0;
    }
    if !UserFlag(Flags(pte)) {
      return 0;
    }
    pa := Target(pte);
  }

  lemma {:induction false} ViewBound(pg: Pages, root: nat)
    ensures forall v :: v in View(pg, root) ==> v < NPAGES
  {
    hide Lookup;
  }

  lemma {:induction false} SamePage(va: nat, i: nat)
    requires va % PGSIZE + i < PGSIZE
    ensures (va + i) / PGSIZE == va / PGSIZE && (va + i) % PGSIZE == va % PGSIZE + i
  {
    var q := va / PGSIZE;
    assert va + i == q * PGSIZE + (va % PGSIZE + i);
  }

  /** n user bytes from va on are all accessible. */
  ghost predicate AllUser(view: map<nat, nat>, va: nat, n: nat) {
    forall x :: va <= x < va + n ==> UserAt(view, x)
  }

  /** The pages that uvmalloc adds are open to the user, with the write and execute bits it was given. */
  lemma {:induction false} AddedIsOpen(view: map<nat, nat>, frames: map<nat, nat>, pg: Pages, s: Space, first: nat,
                                       i: nat, xperm: nat)
    requires Added(view, frames, pg, s, first, i, Perm(xperm), Zeroed()) && xperm in {0, 4, 8, 12}
    ensures AllUser(View(pg, s.root), first * PGSIZE, i * PGSIZE)
    ensures forall v :: first <= v < first + i ==> v in View(pg, s.root) && Flags(View(pg, s.root)[v]) == 19 + xperm
  {
    hide View, Target, Flags, MakePte;
    var m := View(pg, s.root);
    forall v | first <= v < first + i ensures v in m && Flags(m[v]) == 19 + xperm && UserFlag(Flags(m[v])) {
      assert PlacedAt(pg, m, s.frames, v, Perm(xperm)(v), Zeroed()(v));
      TargetAligned(m[v]);
      MakePteOk(Target(m[v]), 18 + xperm);
    }
    forall x | first * PGSIZE <= x < first * PGSIZE + i * PGSIZE ensures UserAt(m, x) {
      assert first <= x / PGSIZE < first + i;
    }
  }

  lemma {:induction false} TargetAligned(pte: nat)
    ensures Target(pte) % PGSIZE == 0
  {
  }

  lemma {:induction false} AllUserMore(view: map<nat, nat>, va: nat, k: nat, n: nat)
    requires AllUser(view, va, k) && UserAt(view, va + k) && (va + k) % PGSIZE + n <= PGSIZE
    ensures AllUser(view, va, k + n)
  {
    hide UserAt;
    forall x | va <= x < va + k + n ensures UserAt(view, x) {
      if x >= va + k {
        SamePage(va + k, x - (va + k));
        UserPage(view, va + k, x);
      }
    }
  }

  lemma {:induction false} UserPage(view: map<nat, nat>, x: nat, y: nat)
    requires UserAt(view, x) && x / PGSIZE == y / PGSIZE
    ensures UserAt(view, y)
  {
  }

  /**
   copyout: succeeds exactly when all the addressed bytes are accessible; it
   replaces exactly the first k addressed bytes, where k is all of them or stops
   at the first inaccessible page.
   */
  method Copyout(m: Mem, root: nat, dstva: nat, src: seq<nat>, ghost s: Space) returns (r: int, ghost k: nat)
    requires m.Holds(s) && root == s.root && UserOwned(m.pages, s)
    modifies m
    ensures m.Holds(s) && UserOwned(m.pages, s) && m.free == old(m.free)
    ensures View(m.pages, root) == old(View(m.pages, root))
    ensures k <= |src| && AllUser(View(m.pages, root), dstva, k) && Patched(old(m.pages), m.pages, s, dstva, src[..k])
    ensures r == 0 ==> k == |src|
    ensures r != 0 ==> r == -1 && k < |src| && !UserAt(View(m.pages, root), dstva + k)
  {
    hide View, Mem.Holds, Patched, UserAt, AllUser, Target, OwnsAt, UserOwned;
    ghost var pg0, view := m.pages, View(m.pages, root);
    StartCopy(m, dstva, s);
    var dst, len, from := dstva, |src|, 0;
    k := 0;
    while len > 0
      invariant len == |src| - k && from == k <= |src|
      invariant m.Holds(s) && UserOwned(m.pages, s) && m.free == old(m.free) && View(m.pages, root) == view
      invariant AllUser(view, dstva, k) && Patched(pg0, m.pages, s, dstva, src[..k])
      invariant len > 0 ==> dst == dstva + k
    {
      var va0 := dst / PGSIZE * PGSIZE;
      assert va0 / PGSIZE == dst / PGSIZE;
      var pa0 := Walkaddr(m, root, va0, s);
      if pa0 == 0 {
        NotUser(view, va0, dst);
        return -1, k;
      }
      UserPage(view, va0, dst);
      var n := PGSIZE - (dst - va0);
      if n > len {
        n := len;
      }
      assert dst - va0 == dst % PGSIZE;
      FrameData(m, s, view, dst / PGSIZE);
      AllUserMore(view, dstva, k, n);
      ghost var pg := m.pages;
      Poke(m, pa0, dst - va0, src[from..from + n], s);
      PatchedMore(pg0, pg, s, dstva, src[..k], dst / PGSIZE, pa0, src[from..from + n], m.pages);
      assert src[..k] + src[k..k + n] == src[..k + n];
      len := len - n;
      from := from + n;
      k := k + n;
      dst := va0 + PGSIZE;
    }
    r := 0;
  }

  lemma {:induction false} NotUser(view: map<nat, nat>, x: nat, y: nat)
    requires !UserAt(view, x) && x / PGSIZE == y / PGSIZE
    ensures !UserAt(view, y)
  {
  }

  lemma {:induction false} StartCopy(m: Mem, va: nat, s: Space)
    requires m.Holds(s)
    ensures Patched(m.pages, m.pages, s, va, []) && AllUser(View(m.pages, s.root), va, 0)
  {
    PatchedNone(m.pages, s, va);
  }

  lemma {:induction false} FrameData(m: Mem, s: Space, view: map<nat, nat>, v: nat)
    requires m.Holds(s) && OwnsAt(view, s.frames, v)
    ensures v in view && Target(view[v]) in s.frames && s.frames[Target(view[v])] == v
    ensures IsData(m.pages, Target(view[v]))
    ensures forall a :: a in s.frames && s.frames[a] == v ==> a == Target(view[v])
  {
    hide TreeOk, FreeList, Lookup, Target;
    OwnerUnique(m.pages, s, Target(view[v]));
  }

  /** memmove into a frame. */
  method Poke(m: Mem, pa: nat, off: nat, data: seq<nat>, ghost s: Space)
    requires m.Holds(s) && pa in s.frames && IsData(m.pages, pa) && off + |data| <= PGSIZE && UserOwned(m.pages, s)
    modifies m
    ensures m.Holds(s) && m.free == old(m.free) && View(m.pages, s.root) == old(View(m.pages, s.root))
    ensures UserOwned(m.pages, s)
    ensures m.pages == old(m.pages)[pa := Data(Patch(old(m.pages)[pa].bytes, off, data))]
  {
    hide View, TreeOk, FreeList, SpaceOk, OwnsAt;
    ghost var pg := m.pages;
    assert pa in PagesOf(s);
    PokeSpace(pg, s, pa, Patch(m.pages[pa].bytes, off, data));
    m.FreeInPages();
    m.pages := m.pages[pa := Data(Patch(m.pages[pa].bytes, off, data))];
    ListFrame(pg, m.pages, m.freelist, m.free);
  }

  /** copyin: the addressed bytes, if all of them are accessible. */
  method Copyin(m: Mem, root: nat, srcva: nat, count: nat, ghost s: Space) returns (r: int, dst: seq<nat>)
    requires m.Holds(s) && root == s.root && UserOwned(m.pages, s)
    modifies m
    ensures m.Holds(s) && m.pages == old(m.pages) && m.free == old(m.free)
    ensures r == 0 <==> AllUser(View(m.pages, root), srcva, count)
    ensures r == 0 ==> dst == UserBytes(m.pages, View(m.pages, root), srcva, count)
    ensures r != 0 ==> r == -1
  {
    hide View, Mem.Holds, UserAt, AllUser, Target, OwnsAt, UserOwned, UserBytes;
    ghost var pg, view := m.pages, View(m.pages, root);
    StartCopy(m, srcva, s);
    BytesMore(pg, view, srcva, 0, 0);
    var src, len := srcva, count;
    dst := [];
    while len > 0
      invariant len == count - |dst| >= 0
      invariant m.Holds(s) && m.pages == pg && m.free == old(m.free)
      invariant AllUser(view, srcva, |dst|) && dst == UserBytes(pg, view, srcva, |dst|)
      invariant len > 0 ==> src == srcva + |dst|
    {
      var va0 := src / PGSIZE * PGSIZE;
      assert va0 / PGSIZE == src / PGSIZE;
      var pa0 := Walkaddr(m, root, va0, s);
      if pa0 == 0 {
        NotUser(view, va0, src);
        NotAll(view, srcva, count, |dst|);
        return -1, dst;
      }
      UserPage(view, va0, src);
      var n := PGSIZE - (src - va0);
      if n > len {
        n := len;
      }
      assert src - va0 == src % PGSIZE;
      FrameData(m, s, view, src / PGSIZE);
      AllUserMore(view, srcva, |dst|, n);
      PageBytes(pg, view, src, n);
      BytesMore(pg, view, srcva, |dst|, n);
      len := len - n;
      dst := dst + m.pages[pa0].bytes[src - va0..src - va0 + n];
      src := va0 + PGSIZE;
    }
    r := 0;
  }

  lemma {:induction false} NotAll(view: map<nat, nat>, va: nat, n: nat, i: nat)
    requires i < n && !UserAt(view, va + i)
    ensures !AllUser(view, va, n)
  {
    hide UserAt;
  }

  lemma {:induction false} BytesMore(pg: Pages, view: map<nat, nat>, va: nat, k: nat, n: nat)
    ensures UserBytes(pg, view, va, k) + UserBytes(pg, view, va + k, n) == UserBytes(pg, view, va, k + n)
    ensures UserBytes(pg, view, va, 0) == []
  {
    hide ByteAt;
    var whole := UserBytes(pg, view, va, k + n);
    forall i | 0 <= i < k + n
      ensures (UserBytes(pg, view, va, k) + UserBytes(pg, view, va + k, n))[i] == whole[i]
    {
      assert whole[va + i - va] == ByteAt(pg, view, va + i);
      if i >= k {
        assert UserBytes(pg, view, va + k, n)[va + i - (va + k)] == ByteAt(pg, view, va + i);
      }
    }
  }

  lemma {:induction false} PageBytes(pg: Pages, view: map<nat, nat>, va: nat, n: nat)
    requires va / PGSIZE in view && IsData(pg, Target(view[va / PGSIZE])) && va % PGSIZE + n <= PGSIZE
    ensures pg[Target(view[va / PGSIZE])].bytes[va % PGSIZE..va % PGSIZE + n] == UserBytes(pg, view, va, n)
  {
    hide Target;
    var b := pg[Target(view[va / PGSIZE])].bytes;
    forall i | 0 <= i < n ensures b[va % PGSIZE..va % PGSIZE + n][i] == UserBytes(pg, view, va, n)[i] {
      SamePage(va, i);
      assert UserBytes(pg, view, va, n)[va + i - va] == ByteAt(pg, view, va + i);
    }
  }

  /** Round trip: what a successful copyout wrote is what copyin then reads, across page boundaries. */
  lemma {:induction false} CopyinAfterCopyout(pg: Pages, pg': Pages, s: Space, va: nat, data: seq<nat>)
    requires SpaceOk(pg, s) && SpaceOk(pg', s) && View(pg', s.root) == View(pg, s.root) && UserOwned(pg, s)
    requires AllUser(View(pg, s.root), va, |data|) && Patched(pg, pg', s, va, data)
    ensures UserBytes(pg', View(pg', s.root), va, |data|) == data
  {
    hide View, TreeOk, Target, SpaceOk;
    var view := View(pg, s.root);
    var read := UserBytes(pg', view, va, |data|);
    forall i | 0 <= i < |data| ensures read[i] == data[i] {
      assert UserAt(view, va + i);
      var a, j := Target(view[(va + i) / PGSIZE]), (va + i) % PGSIZE;
      assert s.frames[a] * PGSIZE + j == va + i;
      assert pg'[a].bytes[j] == Written(va, data, s.frames[a] * PGSIZE + j, pg[a].bytes[j]);
      assert read[va + i - va] == ByteAt(pg', view, va + i);
    }
  }

  /** Every user byte outside the written range reads as before. */
  lemma {:induction false} CopyoutElsewhere(pg: Pages, pg': Pages, s: Space, va: nat, data: seq<nat>, x: nat)
    requires View(pg', s.root) == View(pg, s.root) && Patched(pg, pg', s, va, data)
    requires UserOwned(pg, s) && UserAt(View(pg, s.root), x) && !(va <= x < va + |data|)
    ensures ByteAt(pg', View(pg', s.root), x) == ByteAt(pg, View(pg, s.root), x)
  {
    hide View, Target;
    var view := View(pg, s.root);
    var a, j := Target(view[x / PGSIZE]), x % PGSIZE;
    assert s.frames[a] * PGSIZE + j == x;
    assert pg'[a].bytes[j] == Written(va, data, s.frames[a] * PGSIZE + j, pg[a].bytes[j]);
  }
}
