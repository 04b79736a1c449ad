/**
 Physical pages (kernel/kalloc.c) and user address spaces (kernel/vm.c).  A
 `Space` names the pages one address space owns: its page-table pages and the
 frames of its user memory.
 */
module Vm {
  import opened PageTable
  import opened Sequences

  const MAXVA: nat := NPAGES * PGSIZE

  ghost predicate IsData(pg: Pages, a: nat) {
    a in pg && pg[a].Data? && |pg[a].bytes| == PGSIZE
  }

  /** `frames` gives, for each frame the space owns, the page number it is mapped at. */
  datatype Space = Space(root: nat, tabs: Tables, frames: map<nat, nat>)

  ghost predicate SpaceOk(pg: Pages, s: Space) {
    && TreeOk(pg, s.root, s.tabs)
    && forall a :: a in s.frames ==>
         && a !in s.tabs && IsData(pg, a) && s.frames[a] < NPAGES
         && IsValid(Lookup(pg, s.root, s.frames[a])) && Target(Lookup(pg, s.root, s.frames[a])) == a
  }

  ghost function PagesOf(s: Space): (r: set<nat>) {
    s.tabs.Keys + s.frames.Keys
  }

  /** The contents of these frames are untouched. */
  ghost predicate Kept(pg: Pages, pg': Pages, frames: map<nat, nat>) {
    forall a :: a in frames ==> a in pg && a in pg' && pg'[a] == pg[a]
  }

  /**
   Conservation: pages only move between the free list and the space; together
   they are the same pages as before, apart, and no other page changes.
   */
  ghost predicate Moved(pg: Pages, free: seq<nat>, s: Space, pg': Pages, free': seq<nat>, s': Space) {
    && pg'.Keys == pg.Keys
    && ToSet(free') + PagesOf(s') == ToSet(free) + PagesOf(s)
    && ToSet(free') !! PagesOf(s')
    && forall x :: x in pg && x !in free && x !in PagesOf(s) ==> pg'[x] == pg[x]
  }

  lemma {:induction false} MovedTwice(pg: Pages, free: seq<nat>, s: Space, pg1: Pages, free1: seq<nat>, s1: Space,
                                      pg2: Pages, free2: seq<nat>, s2: Space)
    requires Moved(pg, free, s, pg1, free1, s1) && Moved(pg1, free1, s1, pg2, free2, s2)
    ensures Moved(pg, free, s, pg2, free2, s2)
  {
    forall x | x in pg && x !in free && x !in PagesOf(s) ensures pg2[x] == pg[x] {
      assert x !in ToSet(free) + PagesOf(s);
      assert x !in ToSet(free1) + PagesOf(s1);
    }
  }

  lemma {:induction false} MovedNot(pg: Pages, free: seq<nat>, s: Space)
    requires ToSet(free) !! PagesOf(s)
    ensures Moved(pg, free, s, pg, free, s)
  {
  }

  lemma {:induction false} SpaceKept(pg: Pages, s: Space)
    requires SpaceOk(pg, s)
    ensures Kept(pg, pg, s.frames)
  {
  }

  lemma {:induction false} KeptTwice(pg: Pages, pg1: Pages, pg2: Pages, frames: map<nat, nat>)
    requires Kept(pg, pg1, frames) && Kept(pg1, pg2, frames)
    ensures Kept(pg, pg2, frames)
  {
  }

  lemma {:induction false} KeptLess(pg: Pages, pg': Pages, frames: map<nat, nat>, fewer: map<nat, nat>)
    requires Kept(pg, pg', frames) && fewer.Keys <= frames.Keys
    ensures Kept(pg, pg', fewer)
  {
  }

  lemma {:induction false} RootTable(pg: Pages, s: Space)
    requires SpaceOk(pg, s)
    ensures s.root in s.tabs && s.tabs[s.root] == Root && s.root != 0
  {
  }

  lemma {:induction false} StoreMoves(pg: Pages, free: seq<nat>, s: Space, pg': Pages, t: nat)
    requires ToSet(free) !! PagesOf(s) && t in s.tabs && pg'.Keys == pg.Keys
    requires forall x :: x in pg && x != t ==> pg'[x] == pg[x]
    ensures Moved(pg, free, s, pg', free, s)
  {
  }

  /** No frame of the space is mapped at an unmapped page number. */
  lemma {:induction false} FreshKey(pg: Pages, s: Space, vpn: nat)
    requires SpaceOk(pg, s) && vpn < NPAGES && !IsValid(Lookup(pg, s.root, vpn))
    ensures SubFrames(s.frames, s.frames, vpn)
  {
  }

  lemma {:induction false} LeafEntry(pg: Pages, s: Space, vpn: nat, t: nat)
    requires SpaceOk(pg, s) && vpn < NPAGES && t in s.tabs && s.tabs[t] == PosAt(vpn, 0)
    ensures IsTable(pg, t) && (IsValid(pg[t].ptes[Px0(vpn)]) ==> MapsPage(Flags(pg[t].ptes[Px0(vpn)])))
  {
  }

  /** What the address space maps is the same. */
  lemma {:induction false} ViewSame(pg: Pages, pg': Pages, root: nat)
    requires forall vpn :: 0 <= vpn < NPAGES ==> SameMapping(pg, pg', root, vpn)
    ensures View(pg', root) == View(pg, root)
  {
    hide Lookup;
    forall vpn | 0 <= vpn < NPAGES
      ensures (vpn in View(pg', root) <==> vpn in View(pg, root))
      ensures (vpn in View(pg, root) ==> View(pg', root)[vpn] == View(pg, root)[vpn])
    {
      assert SameMapping(pg, pg', root, vpn);
    }
  }

  /** Changing pages outside a space leaves it, and what it maps, as they were. */
  lemma {:induction false} SpaceFrame(pg: Pages, pg': Pages, s: Space)
    requires SpaceOk(pg, s)
    requires forall a :: a in PagesOf(s) ==> a in pg' && pg'[a] == pg[a]
    ensures SpaceOk(pg', s) && View(pg', s.root) == View(pg, s.root)
  {
    TreeFrame(pg, pg', s.root, s.tabs);
    hide Lookup, TreeOk;
    ViewSame(pg, pg', s.root);
  }

  // ----- the free list ----------------------------------------------------------------

  /** Following `next` from head visits exactly the pages of `free`, in order. */
  ghost predicate FreeList(pg: Pages, head: nat, free: seq<nat>)
    decreases |free|
  {
    if free == [] then head == 0
    else
      && head == free[0] && head != 0 && head !in free[1..] && head in pg && pg[head].Run?
      && FreeList(pg, pg[head].next, free[1..])
  }

  lemma {:induction false} ListFrame(pg: Pages, pg': Pages, head: nat, free: seq<nat>)
    requires FreeList(pg, head, free) && forall x :: x in free ==> x in pg' && x in pg && pg'[x] == pg[x]
    ensures FreeList(pg', head, free)
    decreases |free|
  {
    if free != [] {
      assert free[0] in free;
      forall x | x in free[1..] ensures x in pg' && x in pg && pg'[x] == pg[x] {
        assert x in free;
      }
      ListFrame(pg, pg', pg[head].next, free[1..]);
    }
  }

  lemma {:induction false} ListIn(pg: Pages, head: nat, free: seq<nat>, x: nat)
    requires FreeList(pg, head, free) && x in free
    ensures x in pg && pg[x].Run? && x != 0
    decreases |free|
  {
    if x != free[0] {
      ListIn(pg, pg[head].next, free[1..], x);
    }
  }

  /** A whole page of the range. */
  predicate WholePage(a: int, first: nat, last: nat) {
    a % PGSIZE == 0 && first <= a && a + PGSIZE <= last
  }

  lemma {:induction false} NextPage(a: int, p: nat, first: nat, last: nat)
    requires p % PGSIZE == 0 && first <= p && p + PGSIZE <= last
    ensures WholePage(p, first, last)
    ensures WholePage(a, first, last) && p < a ==> p + PGSIZE <= a
  {
  }

  /** freerange: every whole page between `first` and `last` goes on the free list. */
  method Freerange(first: nat, last: nat) returns (pg: Pages, list: nat, ghost free: seq<nat>)
    requires 0 < first
    ensures FreeList(pg, list, free) && ToSet(free) == pg.Keys
    ensures forall a :: a in pg <==> WholePage(a, first, last)
  {
    hide WholePage;
    var p := (first + PGSIZE - 1) / PGSIZE * PGSIZE;
    FirstPage(first, last);
    pg, list, free := map[], 0, [];
    while p + PGSIZE <= last
      invariant p % PGSIZE == 0 && first <= p
      invariant forall a :: a in pg <==> WholePage(a, first, last) && a < p
      invariant FreeList(pg, list, free) && ToSet(free) == pg.Keys
      decreases last - p
    {
      FreeGrows(pg, list, free, p);
      forall a: int ensures a in pg[p := Run(list)] <==> WholePage(a, first, last) && a < p + PGSIZE {
        NextPage(a, p, first, last);
      }
      pg := pg[p := Run(list)];
      list, free := p, [p] + free;
      p := p + PGSIZE;
    }
    forall a: int | WholePage(a, first, last) ensures a < p {
      LastPage(a, p, first, last);
    }
  }

  lemma {:induction false} FirstPage(first: nat, last: nat)
    ensures first <= (first + PGSIZE - 1) / PGSIZE * PGSIZE
    ensures forall a: int :: WholePage(a, first, last) ==> (first + PGSIZE - 1) / PGSIZE * PGSIZE <= a
  {
    forall a: int | WholePage(a, first, last) ensures (first + PGSIZE - 1) / PGSIZE * PGSIZE <= a {
      assert (first + PGSIZE - 1) / PGSIZE <= a / PGSIZE;
    }
  }

  lemma {:induction false} LastPage(a: int, p: nat, first: nat, last: nat)
    requires WholePage(a, first, last) && last < p + PGSIZE
    ensures a < p
  {
  }

  /** kfree of a page that is not yet on the list. */
  lemma {:induction false} FreeGrows(pg: Pages, list: nat, free: seq<nat>, p: nat)
    requires FreeList(pg, list, free) && ToSet(free) == pg.Keys && p !in pg && p != 0
    ensures FreeList(pg[p := Run(list)], p, [p] + free) && ToSet([p] + free) == pg[p := Run(list)].Keys
  {
    forall x | x in free ensures x in pg && x != p { assert x in ToSet(free); }
    ListFrame(pg, pg[p := Run(list)], list, free);
    assert ([p] + free)[1..] == free;
    assert ToSet([p] + free) == {p} + ToSet(free);
  }

  /** Hanging the first free page into the tree as a table moves it from the free list to the space. */
  lemma {:induction false} AttachSpace(pg: Pages, free: seq<nat>, s: Space, a: nat, k: nat)
    requires SpaceOk(pg, s) && ToSet(free) !! PagesOf(s) && free != [] && (forall x :: x in free ==> x in pg)
    requires a in s.tabs && !s.tabs[a].Leaf? && k < FANOUT && PosOk(Child(s.tabs[a], k)) && !IsValid(pg[a].ptes[k])
    requires free[0] != 0 && free[0] % PGSIZE == 0 && free[0] !in free[1..]
    ensures free[0] !in PagesOf(s)
    ensures var s' := Space(s.root, s.tabs[free[0] := Child(s.tabs[a], k)], s.frames);
            var pg' := Attach(pg, a, k, free[0]);
            && SpaceOk(pg', s') && ToSet(free[1..]) !! PagesOf(s')
            && Moved(pg, free, s, pg', free[1..], s') && View(pg', s.root) == View(pg, s.root)
            && Kept(pg, pg', s.frames)
  {
    hide Lookup, TreeOk, View, EmptyTable, MakePte;
    var b := free[0];
    assert b in ToSet(free);
    assert a in PagesOf(s);
    EntryTable(pg, s.root, s.tabs, a, k);
    AttachKeeps(pg, s.root, s.tabs, a, k, b);
    var pg' := Attach(pg, a, k, b);
    ViewSame(pg, pg', s.root);
    forall f | f in s.frames ensures IsData(pg', f) && f != b && SameMapping(pg, pg', s.root, s.frames[f]) {
      assert f in PagesOf(s);
    }
    assert free == [b] + free[1..];
    assert ToSet(free) == {b} + ToSet(free[1..]);
    assert forall x :: x in s.tabs && x != a ==> x in PagesOf(s);
  }

  /** PX */
  function Px(level: nat, va: nat): (k: nat)
    requires level <= 2
    ensures k < FANOUT
  {
    va / (if level == 2 then 0x4000_0000 else if level == 1 then 0x20_0000 else 0x1000) % FANOUT
  }

  lemma {:induction false} PxVa(va: nat)
    requires va < MAXVA
    ensures Px(2, va) == Px2(va / PGSIZE) < HALF && Px(1, va) == Px1(va / PGSIZE) && Px(0, va) == Px0(va / PGSIZE)
  {
    assert va / 0x4000_0000 == va / PGSIZE / 0x4_0000;
    assert va / 0x20_0000 == va / PGSIZE / FANOUT;
  }

  /** The table walk has reached with `level` levels to go. */
  function PosAt(vpn: nat, level: nat): (p: Pos) {
    if level >= 2 then Root else if level == 1 then Mid(Px2(vpn)) else Leaf(Px2(vpn), Px1(vpn))
  }

  // ----- how many pages an operation takes -------------------------------------------------

  /** The positions that have a table. */
  ghost function Placed(tabs: Tables): (r: set<Pos>) {
    set a | a in tabs :: tabs[a]
  }

  /** The tables on the way to a page number, below the root and down to `level`. */
  ghost function Steps(vpn: nat, level: nat): (r: set<Pos>)
    decreases 2 - level
  {
    if level >= 2 then {} else Steps(vpn, level + 1) + {PosAt(vpn, level)}
  }

  lemma {:induction false} StepsDown(vpn: nat, level: nat)
    requires 0 < level <= 2
    ensures Steps(vpn, level - 1) == Steps(vpn, level) + {PosAt(vpn, level - 1)} <= Steps(vpn, 0)
    ensures Steps(vpn, 2) == {}
  {
  }

  /** The tables on the way to n page numbers. */
  ghost function Paths(first: nat, n: nat): (r: set<Pos>) {
    if n == 0 then {} else Paths(first, n - 1) + Steps(first + n - 1, 0)
  }

  /** How many of these positions have no table. */
  ghost function Missing(tabs: Tables, need: set<Pos>): (n: nat) {
    |need - Placed(tabs)|
  }

  /** The missing tables were made, and these and m other pages taken from the free list. */
  ghost predicate Took(tabs: Tables, free: nat, tabs': Tables, free': nat, need: set<Pos>, m: nat) {
    Placed(tabs') == Placed(tabs) + need && free == free' + Missing(tabs, need) + m
  }

  /** There are not enough free pages for the missing tables and m other pages. */
  ghost predicate Short(tabs: Tables, free: nat, need: set<Pos>, m: nat) {
    free < Missing(tabs, need) + m
  }

  lemma {:induction false} Enough(tabs: Tables, free: nat, tabs': Tables, free': nat, need: set<Pos>, m: nat)
    ensures Took(tabs, free, tabs', free', need, m) ==> free >= m + Missing(tabs, need)
    ensures Short(tabs, free, need, m) <==> free < m + Missing(tabs, need)
  {
    hide Placed;
  }

  lemma {:induction false} TookNothing(tabs: Tables, free: nat)
    ensures Took(tabs, free, tabs, free, {}, 0)
  {
    assert {} - Placed(tabs) == {};
  }

  lemma {:induction false} MissingMore(tabs: Tables, tabs1: Tables, need: set<Pos>, more: set<Pos>)
    requires Placed(tabs1) == Placed(tabs) + need
    ensures Missing(tabs, need + more) == Missing(tabs, need) + Missing(tabs1, more)
  {
    var a, b := need - Placed(tabs), more - Placed(tabs1);
    assert need + more - Placed(tabs) == a + b && a !! b;
  }

  lemma {:induction false} TookTwice(tabs: Tables, free: nat, tabs1: Tables, free1: nat, need: set<Pos>, m: nat,
                                     tabs2: Tables, free2: nat, more: set<Pos>, m': nat)
    requires Took(tabs, free, tabs1, free1, need, m) && Took(tabs1, free1, tabs2, free2, more, m')
    ensures Took(tabs, free, tabs2, free2, need + more, m + m')
  {
    hide Placed, Missing;
    MissingMore(tabs, tabs1, need, more);
  }

  lemma {:induction false} ShortAfter(tabs: Tables, free: nat, tabs1: Tables, free1: nat, need: set<Pos>, m: nat,
                                      more: set<Pos>, m': nat)
    requires Took(tabs, free, tabs1, free1, need, m) && Short(tabs1, free1, more, m')
    ensures Short(tabs, free, need + more, m + m')
  {
    hide Placed, Missing;
    MissingMore(tabs, tabs1, need, more);
  }

  lemma {:induction false} ShortMore(tabs: Tables, free: nat, need: set<Pos>, m: nat, need': set<Pos>, m': nat)
    requires Short(tabs, free, need, m) && need <= need' && m <= m'
    ensures Short(tabs, free, need', m')
  {
    SubsetCount(need - Placed(tabs), need' - Placed(tabs));
  }

  lemma {:induction false} OnePath(first: nat)
    ensures Paths(first, 1) == Steps(first, 0)
  {
    hide Steps;
    assert Paths(first, 0) == {};
  }

  lemma {:induction false} PathsGrow(first: nat, n: nat, n': nat)
    requires n <= n'
    ensures Paths(first, n) <= Paths(first, n')
    decreases n'
  {
    if n < n' {
      PathsGrow(first, n, n' - 1);
    }
  }

  lemma {:induction false} TwoMore(need: set<Pos>, v: nat)
    ensures |need + Steps(v, 0)| <= |need| + 2
  {
    var p, q := PosAt(v, 1), PosAt(v, 0);
    assert Steps(v, 0) == Steps(v, 1) + {q};
    assert Steps(v, 1) == Steps(v, 2) + {p};
    assert need + Steps(v, 0) == need + {p} + {q};
  }

  /** A page number needs at most two tables below the root. */
  lemma {:induction false} TwoEach(tabs: Tables, first: nat, n: nat)
    ensures Missing(tabs, Paths(first, n)) <= 2 * n
  {
    SubsetCount(Paths(first, n) - Placed(tabs), Paths(first, n));
    FewPaths(first, n);
  }

  lemma {:induction false} FewPaths(first: nat, n: nat)
    ensures |Paths(first, n)| <= 2 * n
  {
    hide Steps;
    if n > 0 {
      FewPaths(first, n - 1);
      TwoMore(Paths(first, n - 1), first + n - 1);
    }
  }

  /** One table more, or none because it is there. */
  lemma {:induction false} TookOne(pg: Pages, s: Space, p: Pos, b: nat, free: nat)
    requires SpaceOk(pg, s) && PosOk(p)
    ensures TableAt(pg, s.root, p) == 0 && b !in s.tabs ==> Took(s.tabs, free + 1, s.tabs[b := p], free, {p}, 0)
    ensures TableAt(pg, s.root, p) == 0 ==> Short(s.tabs, 0, {p}, 0)
    ensures TableAt(pg, s.root, p) != 0 ==> Took(s.tabs, free, s.tabs, free, {p}, 0)
  {
    hide TableAt;
    var t := s.tabs[b := p];
    if TableAt(pg, s.root, p) == 0 {
      assert p !in Placed(s.tabs);
      assert {p} - Placed(s.tabs) == {p};
      assert t[b] == p && (b !in s.tabs ==> forall a :: a in s.tabs ==> a in t && t[a] == s.tabs[a]);
    } else {
      assert p in Placed(s.tabs);
      assert {p} - Placed(s.tabs) == {};
      assert Placed(s.tabs) + {p} == Placed(s.tabs);
    }
  }

  lemma {:induction false} NoTable(pg: Pages, root: nat, vpn: nat, level: nat)
    requires vpn < NPAGES && level < 2 && PosOk(PosAt(vpn, level)) && TableAt(pg, root, PosAt(vpn, level)) == 0
    ensures !IsValid(Lookup(pg, root, vpn))
  {
    PxInjective(vpn, vpn);
  }

  lemma {:induction false} LookupAt(pg: Pages, root: nat, tabs: Tables, vpn: nat, t: nat)
    requires TreeOk(pg, root, tabs) && vpn < NPAGES && t in tabs && tabs[t] == PosAt(vpn, 0)
    ensures IsTable(pg, t) && Px2(vpn) < HALF && t == TableAt(pg, root, Leaf(Px2(vpn), Px1(vpn))) && t != 0
    ensures pg[t].ptes[Px0(vpn)] == Lookup(pg, root, vpn)
  {
    PxInjective(vpn, vpn);
    assert TableAt(pg, root, tabs[t]) == t;
  }

  /** The map after storing an entry for vpn. */
  ghost function Stored(m: map<nat, nat>, vpn: nat, pte: nat): (m': map<nat, nat>) {
    if IsValid(pte) then m[vpn := pte] else m - {vpn}
  }

  ghost predicate SubFrames(f: map<nat, nat>, g: map<nat, nat>, vpn: nat) {
    forall a :: a in f ==> a in g && f[a] == g[a] && f[a] != vpn
  }

  /** Storing a bottom entry changes one key of the map; frames mapped elsewhere are not touched. */
  lemma {:induction false} StoreSpace(pg: Pages, s: Space, vpn: nat, t: nat, pte: nat, frames: map<nat, nat>)
    requires SpaceOk(pg, s) && vpn < NPAGES && t in s.tabs && s.tabs[t] == PosAt(vpn, 0)
    requires (IsValid(pte) ==> MapsPage(Flags(pte))) && SubFrames(frames, s.frames, vpn)
    ensures IsTable(pg, t) && Px0(vpn) < FANOUT
    ensures SpaceOk(SetPte(pg, t, Px0(vpn), pte), Space(s.root, s.tabs, frames))
    ensures View(SetPte(pg, t, Px0(vpn), pte), s.root) == Stored(View(pg, s.root), vpn, pte)
    ensures Kept(pg, SetPte(pg, t, Px0(vpn), pte), frames)
  {
    hide TreeOk, Lookup;
    LookupAt(pg, s.root, s.tabs, vpn, t);
    SetLeaf(pg, s.root, s.tabs, vpn, pte);
  }

  /** Consecutive pages from pa on, mapped with perm at k page numbers from first on. */
  ghost function Range(first: nat, k: nat, pa: nat, perm: nat): (m: map<nat, nat>)
    ensures forall v :: v in m <==> first <= v < first + k
  {
    if k == 0 then map[] else Range(first, k - 1, pa, perm)[first + k - 1 := MakePte(pa + (k - 1) * PGSIZE, perm)]
  }

  lemma {:induction false} RangeMore(m: map<nat, nat>, first: nat, k: nat, pa: nat, perm: nat)
    ensures (m + Range(first, k, pa, perm))[first + k := MakePte(pa + k * PGSIZE, perm)]
         == m + Range(first, k + 1, pa, perm)
    ensures m + Range(first, 0, pa, perm) == m
  {
  }

  /** Page number v is mapped to a frame that the space owns. */
  ghost predicate OwnsAt(m: map<nat, nat>, frames: map<nat, nat>, v: nat) {
    v in m && Target(m[v]) in frames && frames[Target(m[v])] == v
  }

  /** Some page number from lo up to hi is not mapped. */
  ghost predicate Hole(m: map<nat, nat>, lo: nat, hi: nat) {
    exists v :: lo <= v < hi && v !in m
  }

  lemma {:induction false} NoHole(m: map<nat, nat>, frames: map<nat, nat>, lo: nat, hi: nat)
    requires forall v :: lo <= v < hi ==> OwnsAt(m, frames, v)
    ensures !Hole(m, lo, hi)
  {
    forall v | lo <= v < hi ensures v in m {
      assert OwnsAt(m, frames, v);
    }
  }

  /**
   uvmdealloc's comment allows an oldsz beyond the process.  On a space that maps the pages
   below `size` (and the two at the top) it panics exactly when oldsz reaches past the
   last of them and it has anything to do at all.
   */
  lemma {:induction false} DeallocPanics(m: map<nat, nat>, size: nat, oldsz: nat, newsz: nat)
    requires Up(size) <= NPAGES - 2 && forall v: nat :: v in m <==> v < Up(size) || NPAGES - 2 <= v < NPAGES
    requires newsz < oldsz && Up(oldsz) <= NPAGES - 2
    ensures Hole(m, Up(newsz), Up(oldsz)) <==> Up(size) < Up(oldsz) && Up(newsz) < Up(oldsz)
  {
    if Up(size) < Up(oldsz) && Up(newsz) < Up(oldsz) {
      assert Up(oldsz) - 1 !in m;
    }
  }

  /** One page beyond the process is enough. */
  lemma {:induction false} DeallocOnePagePast(m: map<nat, nat>, size: nat, newsz: nat)
    requires Up(size) < NPAGES - 2 && forall v: nat :: v in m <==> v < Up(size) || NPAGES - 2 <= v < NPAGES
    requires newsz <= size
    ensures newsz < size + PGSIZE && Hole(m, Up(newsz), Up(size + PGSIZE))
  {
    DeallocPanics(m, size, size + PGSIZE, newsz);
  }

  lemma {:induction false} ViewKeys(pg: Pages, root: nat)
    ensures forall v :: v in View(pg, root) ==> v < NPAGES
  {
  }

  /** The space without the frames at page numbers lo up to hi. */
  ghost function Without(s: Space, lo: nat, hi: nat): (s': Space) {
    Space(s.root, s.tabs, map a | a in s.frames && !(lo <= s.frames[a] < hi) :: s.frames[a])
  }

  lemma {:induction false} ViewIff(pg: Pages, root: nat, vpn: nat)
    requires vpn < NPAGES
    ensures vpn in View(pg, root) <==> IsValid(Lookup(pg, root, vpn))
    ensures vpn in View(pg, root) ==> View(pg, root)[vpn] == Lookup(pg, root, vpn)
  {
    hide Lookup;
  }

  lemma {:induction false} WithoutMore(s: Space, lo: nat, hi: nat)
    requires lo <= hi
    ensures Without(Without(s, lo, hi), hi, hi + 1) == Without(s, lo, hi + 1)
    ensures Without(s, lo, lo) == s
  {
  }

  lemma {:induction false} WithoutRoot(s: Space, lo: nat, hi: nat)
    ensures Without(s, lo, hi).root == s.root
  {
  }

  lemma {:induction false} WithoutLess(s: Space, lo: nat, hi: nat, v: nat)
    ensures Without(s, lo, hi).frames.Keys <= s.frames.Keys
    ensures (forall f :: f in s.frames ==> s.frames[f] != v) ==>
              forall f :: f in Without(s, lo, hi).frames ==> Without(s, lo, hi).frames[f] != v
  {
  }

  lemma {:induction false} WithoutOne(s: Space, v: nat)
    ensures SubFrames(Without(s, v, v + 1).frames, s.frames, v) && Without(s, v, v + 1).tabs == s.tabs
    ensures SubFrames(Without(s, v, v + 1).frames, Without(s, v, v + 1).frames, v)
    ensures (forall f :: f in s.frames ==> s.frames[f] != v) ==> Without(s, v, v + 1) == s
  {
  }

  lemma {:induction false} SpanMore(m: map<nat, nat>, lo: nat, hi: nat)
    requires lo <= hi
    ensures m - Span(lo, hi) - {hi} == m - Span(lo, hi + 1) && m - Span(lo, lo) == m
  {
  }

  lemma {:induction false} WithoutOwns(m: map<nat, nat>, m': map<nat, nat>, s: Space, lo: nat, hi: nat, v: nat)
    requires hi <= v && v in m' && v in m && m'[v] == m[v] && OwnsAt(m, s.frames, v)
    ensures OwnsAt(m', Without(s, lo, hi).frames, v)
  {
  }

  /** Page numbers lo up to hi. */
  ghost function Span(lo: nat, hi: nat): (r: set<nat>)
    requires lo <= hi
    ensures forall v :: v in r <==> lo <= v < hi
    decreases hi - lo
  {
    if lo == hi then {} else Span(lo, hi - 1) + {hi - 1}
  }

  /** A page held outside list and space through an operation stays put. */
  lemma {:induction false} MovedHeld(pg: Pages, free: seq<nat>, s: Space, pg': Pages, free': seq<nat>, s': Space,
                                     mem: nat)
    requires Moved(pg, free, s, pg', free', s') && mem in pg && mem !in free && mem !in PagesOf(s)
    ensures Moved(pg, [mem] + free, s, pg', [mem] + free', s') && pg'[mem] == pg[mem] && mem !in free'
    ensures mem !in PagesOf(s')
  {
    assert mem !in ToSet(free) + PagesOf(s);
    assert mem !in ToSet(free') + PagesOf(s');
    assert ToSet([mem] + free) == {mem} + ToSet(free) && ToSet([mem] + free') == {mem} + ToSet(free');
  }

  lemma {:induction false} HeldFilled(pg: Pages, free: seq<nat>, s: Space, mem: nat, page: Page)
    requires SpaceOk(pg, s) && ToSet(free) !! PagesOf(s) && mem in free && mem in pg
    ensures Moved(pg, free, s, pg[mem := page], free, s) && Kept(pg, pg[mem := page], s.frames) && mem !in PagesOf(s)
  {
    hide TreeOk, Lookup;
    assert mem in ToSet(free);
  }

  lemma {:induction false} OneRange(m: map<nat, nat>, first: nat, pa: nat, perm: nat)
    ensures m + Range(first, 1, pa, perm) == m[first := MakePte(pa, perm)] && m + Range(first, 0, pa, perm) == m
  {
    assert Range(first, 0, pa, perm) == map[];
  }

  /** The space takes over a held page that it maps. */
  lemma {:induction false} Adopt(pg: Pages, free: seq<nat>, s: Space, mem: nat, vpn: nat)
    requires SpaceOk(pg, s) && ToSet(free) !! PagesOf(s) && IsData(pg, mem) && mem !in PagesOf(s) && mem !in free
    requires vpn < NPAGES && vpn in View(pg, s.root) && Target(View(pg, s.root)[vpn]) == mem
    ensures var s' := Space(s.root, s.tabs, s.frames[mem := vpn]);
            SpaceOk(pg, s') && ToSet(free) !! PagesOf(s') && Moved(pg, [mem] + free, s, pg, free, s')
  {
    hide Lookup, TreeOk;
    ViewIff(pg, s.root, vpn);
    assert ToSet([mem] + free) == {mem} + ToSet(free);
  }

  /** Freeing an owned frame: the space lets go of it. */
  lemma {:induction false} FreeFrame(pg: Pages, free: seq<nat>, s: Space, pg': Pages, vpn: nat, pa: nat)
    requires SpaceOk(pg, s) && ToSet(free) !! PagesOf(s) && vpn < NPAGES
    requires pa in s.frames && s.frames[pa] == vpn && pg'.Keys == pg.Keys
    requires forall x :: x in pg && x != pa ==> pg'[x] == pg[x]
    ensures var s' := Without(s, vpn, vpn + 1);
            && SpaceOk(pg', s') && View(pg', s.root) == View(pg, s.root)
            && ToSet([pa] + free) !! PagesOf(s') && Moved(pg, free, s, pg', [pa] + free, s') && Kept(pg, pg', s'.frames)
  {
    hide Lookup, TreeOk, View;
    var s' := Without(s, vpn, vpn + 1);
    assert s'.frames.Keys == s.frames.Keys - {pa} by {
      forall a | a in s.frames && a != pa ensures s.frames[a] != vpn {
        assert Target(Lookup(pg, s.root, s.frames[a])) == a;
      }
    }
    assert SpaceOk(pg, s');
    forall a | a in PagesOf(s') ensures a in pg' && pg'[a] == pg[a] {
      TableInPages(pg, s, a);
    }
    SpaceFrame(pg, pg', s');
    assert ToSet([pa] + free) == {pa} + ToSet(free);
  }

  lemma {:induction false} TableInPages(pg: Pages, s: Space, a: nat)
    requires SpaceOk(pg, s) && a in PagesOf(s)
    ensures a in pg
  {
  }

  /** PGROUNDUP, as a page number. */
  function Up(sz: nat): (n: nat) {
    (sz + PGSIZE - 1) / PGSIZE
  }

  /**
   Pages first up to first + i were added to a space with map `view` and frames `frames`, all
   owned, with this permission and content.
   */
  ghost predicate Added(view: map<nat, nat>, frames: map<nat, nat>, pg: Pages, s: Space, first: nat, i: nat,
                        perm: nat -> nat, content: nat -> seq<nat>)
  {
    && (forall v :: v in View(pg, s.root) <==> v in view || first <= v < first + i)
    && (forall v :: v in view ==> v in View(pg, s.root) && View(pg, s.root)[v] == view[v])
    && (forall a :: a in frames ==> a in s.frames && s.frames[a] == frames[a])
    && (forall a :: a in s.frames && !(first <= s.frames[a] < first + i) ==> a in frames)
    && (forall v :: first <= v < first + i ==> PlacedAt(pg, View(pg, s.root), s.frames, v, perm(v), content(v)))
  }

  /** Page number v is mapped, with this permission, to an owned frame with this content. */
  ghost predicate PlacedAt(pg: Pages, m: map<nat, nat>, frames: map<nat, nat>, v: nat, perm: nat, content: seq<nat>) {
    && OwnsAt(m, frames, v) && m[v] == MakePte(Target(m[v]), perm)
    && Target(m[v]) in pg && pg[Target(m[v])] == Data(content)
  }

  lemma {:induction false} PlacedKept(pg: Pages, m: map<nat, nat>, frames: map<nat, nat>, v: nat, perm: nat,
                                      content: seq<nat>,
                                      pg': Pages, m': map<nat, nat>, frames': map<nat, nat>)
    requires PlacedAt(pg, m, frames, v, perm, content) && Kept(pg, pg', frames) && v in m' && m'[v] == m[v]
    requires forall a :: a in frames ==> a in frames' && frames'[a] == frames[a]
    ensures PlacedAt(pg', m', frames', v, perm, content)
  {
    hide Target, MakePte;
  }

  lemma {:induction false} AddedNone(pg: Pages, s: Space, first: nat, perm: nat -> nat, content: nat -> seq<nat>)
    ensures Added(View(pg, s.root), s.frames, pg, s, first, 0, perm, content)
  {
    hide View;
  }

  lemma {:induction false} AddedOne(view: map<nat, nat>, frames: map<nat, nat>, pg: Pages, s: Space, first: nat, i: nat,
                                    perm: nat -> nat, content: nat -> seq<nat>, pg': Pages, s': Space, mem: nat)
    requires Added(view, frames, pg, s, first, i, perm, content) && s'.root == s.root
    requires first + i !in view && mem % PGSIZE == 0 && perm(first + i) < 1024
    requires Kept(pg, pg', s.frames)
    requires mem !in s.frames && s'.frames == s.frames[mem := first + i] && mem in pg'
    requires pg'[mem] == Data(content(first + i))
    requires View(pg', s.root) == View(pg, s.root)[first + i := MakePte(mem, perm(first + i))]
    ensures Added(view, frames, pg', s', first, i + 1, perm, content)
  {
    hide View, Target, MakePte, PlacedAt;
    MakePteOk(mem, perm(first + i));
    forall v | first <= v < first + i ensures PlacedAt(pg', View(pg', s.root), s'.frames, v, perm(v), content(v)) {
      PlacedOwns(pg, View(pg, s.root), s.frames, v, perm(v), content(v));
      PlacedKept(pg, View(pg, s.root), s.frames, v, perm(v), content(v), pg', View(pg', s.root), s'.frames);
    }
    PlacedNew(pg', View(pg', s.root), s'.frames, first + i, perm(first + i), content(first + i), mem);
  }

  lemma {:induction false} PlacedOwns(pg: Pages, m: map<nat, nat>, frames: map<nat, nat>, v: nat, perm: nat,
                                      content: seq<nat>)
    requires PlacedAt(pg, m, frames, v, perm, content)
    ensures OwnsAt(m, frames, v) && v in m
  {
  }

  lemma {:induction false} PlacedNew(pg: Pages, m: map<nat, nat>, frames: map<nat, nat>, v: nat, perm: nat,
                                     content: seq<nat>, mem: nat)
    requires mem % PGSIZE == 0 && perm < 1024 && v in m && m[v] == MakePte(mem, perm)
    requires mem in frames && frames[mem] == v && mem in pg && pg[mem] == Data(content)
    ensures PlacedAt(pg, m, frames, v, perm, content)
  {
    hide Target, MakePte;
    MakePteOk(mem, perm);
  }

  /** Taking the added pages away again restores map and frames. */
  lemma {:induction false} AddedUndone(view: map<nat, nat>, frames: map<nat, nat>, pg: Pages, s: Space, first: nat,
                                       i: nat,
                                       perm: nat -> nat, content: nat -> seq<nat>)
    requires Added(view, frames, pg, s, first, i, perm, content)
    requires forall v :: first <= v < first + i ==> v !in view
    requires forall a :: a in frames ==> !(first <= frames[a] < first + i)
    ensures View(pg, s.root) - Span(first, first + i) == view
    ensures Without(s, first, first + i).frames == frames
  {
    hide View, PlacedAt;
  }

  lemma {:induction false} AddedSame(view: map<nat, nat>, frames: map<nat, nat>, pg: Pages, s: Space, first: nat,
                                     i: nat,
                                     perm: nat -> nat, content: nat -> seq<nat>, pg': Pages, s': Space)
    requires Added(view, frames, pg, s, first, i, perm, content) && s'.root == s.root && s'.frames == s.frames
    requires View(pg', s.root) == View(pg, s.root) && Kept(pg, pg', s.frames)
    ensures Added(view, frames, pg', s', first, i, perm, content)
  {
    hide View, PlacedAt;
    forall v | first <= v < first + i ensures PlacedAt(pg', View(pg', s.root), s'.frames, v, perm(v), content(v)) {
      PlacedOwns(pg, View(pg, s.root), s.frames, v, perm(v), content(v));
      PlacedKept(pg, View(pg, s.root), s.frames, v, perm(v), content(v), pg', View(pg', s.root), s'.frames);
    }
  }

  lemma {:induction false} AddedOwns(view: map<nat, nat>, frames: map<nat, nat>, pg: Pages, s: Space, first: nat,
                                     i: nat,
                                     perm: nat -> nat, content: nat -> seq<nat>)
    requires Added(view, frames, pg, s, first, i, perm, content)
    ensures forall v :: first <= v < first + i ==> OwnsAt(View(pg, s.root), s.frames, v)
    ensures forall v :: v in View(pg, s.root) ==> v in view || first <= v < first + i
    ensures frames.Keys <= s.frames.Keys
  {
    hide View, PlacedAt;
    forall v | first <= v < first + i ensures OwnsAt(View(pg, s.root), s.frames, v) {
      PlacedOwns(pg, View(pg, s.root), s.frames, v, perm(v), content(v));
    }
  }

  /** The pages between two sizes. */
  function Growth(oldsz: nat, newsz: nat): (n: nat) {
    if Up(oldsz) <= Up(newsz) then Up(newsz) - Up(oldsz) else 0
  }

  /** PTE_R | PTE_U | xperm, for every page. */
  ghost function Perm(xperm: nat): (p: nat -> nat) {
    (v: nat) => 18 + xperm
  }

  ghost function Zeroed(): (c: nat -> seq<nat>) {
    (v: nat) => ZeroPage()
  }

  /** The flags and the bytes of each page of another space, taken at one moment. */
  ghost function FlagsIn(view: map<nat, nat>): (f: nat -> nat) {
    (v: nat) => if v in view then Flags(view[v]) else 0
  }

  ghost function BytesIn(pg: Pages, view: map<nat, nat>): (c: nat -> seq<nat>) {
    (v: nat) =>
      if v in view && Target(view[v]) in pg && pg[Target(view[v])].Data? then pg[Target(view[v])].bytes else []
  }

  /** p is another space, apart from the free list and from s. */
  ghost predicate Aside(pg: Pages, free: seq<nat>, s: Space, p: Space) {
    SpaceOk(pg, p) && PagesOf(p) !! ToSet(free) + PagesOf(s)
  }

  /** What moves between free list and one space does not touch another one. */
  lemma {:induction false} Apart(pg: Pages, free: seq<nat>, s: Space, pg': Pages, free': seq<nat>, s': Space, p: Space)
    requires Moved(pg, free, s, pg', free', s') && Aside(pg, free, s, p)
    ensures Aside(pg', free', s', p) && View(pg', p.root) == View(pg, p.root) && Kept(pg, pg', p.frames)
  {
    hide View, TreeOk, Lookup;
    forall a | a in PagesOf(p) ensures a in pg && a in pg' && pg'[a] == pg[a] {
      TableInPages(pg, p, a);
      assert a !in ToSet(free) + PagesOf(s);
    }
    SpaceFrame(pg, pg', p);
  }

  function ZeroPage(): (b: seq<nat>)
    ensures |b| == PGSIZE
  {
    seq(PGSIZE, i => 0)
  }

  lemma {:induction false} FlagsSmall(pte: nat)
    ensures Flags(pte) < 1024
  {
  }

  lemma {:induction false} CopyOf(pg0: Pages, pg: Pages, view: map<nat, nat>, frames: map<nat, nat>, v: nat)
    requires OwnsAt(view, frames, v) && Kept(pg0, pg, frames) && IsData(pg, Target(view[v]))
    ensures pg[Target(view[v])].bytes == BytesIn(pg0, view)(v) && Flags(view[v]) == FlagsIn(view)(v)
    ensures |BytesIn(pg0, view)(v)| == PGSIZE
  {
    hide Target, Flags;
  }

  lemma {:induction false} FreshTree(pg: Pages, root: nat)
    requires root in pg && pg[root] == EmptyTable() && root != 0
    ensures TreeOk(pg, root, map[root := Root]) && View(pg, root) == map[]
  {
    assert forall p :: PosOk(p) && p != Root ==> TableAt(pg, root, p) == 0;
  }

  lemma {:induction false} BelowNone(tabs: Tables, p: Pos)
    ensures Below(tabs, p, 0) == {}
  {
  }

  /** The child freewalk descends to: its subtree is untouched so far and none of it is free. */
  lemma {:induction false} EntryChild(pg: Pages, tabs: Tables, p: Pos, t: nat, i: nat, pg': Pages, free: seq<nat>,
                                      free': seq<nat>)
    requires Subtree(pg, tabs, p) && t in tabs && tabs[t] == p && i < FANOUT && IsValid(pg[t].ptes[i])
    requires TablesUnder(tabs, p) !! ToSet(free) && ToSet(free') == ToSet(free) + Below(tabs, p, i)
    requires pg'.Keys == pg.Keys && forall x :: x in pg' && x != t && x !in Below(tabs, p, i) ==> pg'[x] == pg[x]
    ensures !p.Leaf? && Target(pg[t].ptes[i]) in tabs && tabs[Target(pg[t].ptes[i])] == Child(p, i)
    ensures Subtree(pg', tabs, Child(p, i)) && TablesUnder(tabs, Child(p, i)) !! ToSet(free')
    ensures Below(tabs, p, i + 1) == Below(tabs, p, i) + TablesUnder(tabs, Child(p, i))
    ensures t !in TablesUnder(tabs, Child(p, i))
  {
    hide IsValid, Target, Flags;
    BelowNext(tabs, p, i);
    assert TablesUnder(tabs, Child(p, i)) <= TablesUnder(tabs, p);
    SubtreeChild(pg, tabs, p, i, pg');
  }

  lemma {:induction false} BadEntry(pg: Pages, tabs: Tables, p: Pos, t: nat, i: nat)
    requires Subtree(pg, tabs, p) && t in tabs && tabs[t] == p && i < FANOUT && IsValid(pg[t].ptes[i])
    ensures !MapsPage(Flags(pg[t].ptes[i]))
  {
    hide Target;
  }

  lemma {:induction false} BelowSame(pg: Pages, tabs: Tables, p: Pos, t: nat, i: nat)
    requires Subtree(pg, tabs, p) && t in tabs && tabs[t] == p && i < FANOUT && !IsValid(pg[t].ptes[i])
    ensures Below(tabs, p, i + 1) == Below(tabs, p, i)
  {
    NoChild(pg, tabs, p, t, i);
    if !p.Leaf? {
      BelowNext(tabs, p, i);
    }
  }

  /** Every owned frame is mapped, so taking all mapped pages leaves none. */
  lemma {:induction false} AllFrames(pg: Pages, s: Space, n: nat)
    requires SpaceOk(pg, s) && forall v :: v in View(pg, s.root) ==> v < n
    ensures Without(s, 0, n) == Space(s.root, s.tabs, map[])
  {
    hide Lookup, TreeOk, Target;
    forall a | a in s.frames ensures s.frames[a] < n {
      ViewIff(pg, s.root, s.frames[a]);
    }
  }

  lemma {:induction false} AllTables(tabs: Tables)
    ensures TablesUnder(tabs, Root) == tabs.Keys
  {
  }

  class Mem {
    const start: nat   // first page after the kernel
    const stop: nat    // PHYSTOP
    var pages: Pages
    var freelist: nat
    ghost var free: seq<nat>

    ghost predicate RangeOk()
      reads this
    {
      forall a :: a in pages ==> a % PGSIZE == 0 && 0 < start <= a < stop
    }

    ghost predicate Valid()
      reads this
    {
      RangeOk() && FreeList(pages, freelist, free)
    }

    ghost predicate Holds(s: Space)
      reads this
    {
      Valid() && SpaceOk(pages, s) && ToSet(free) !! PagesOf(s)
    }

    /** kinit. */
    constructor (first: nat, last: nat)
      requires 0 < first
      ensures Valid() && start == first && stop == last
      ensures forall a :: a in pages <==> WholePage(a, first, last)
      ensures ToSet(free) == pages.Keys
    {
      start, stop := first, last;
      var pg, list, fr := Freerange(first, last);
      pages, freelist, free := pg, list, fr;
    }

    /** kalloc: the first free page, filled with junk, or 0. */
    method Kalloc() returns (r: nat)
      requires Valid()
      modifies this
      ensures Valid() && (r == 0 <==> old(free) == [])
      ensures r == 0 ==> pages == old(pages) && free == old(free)
      ensures r != 0 ==> r == old(free)[0] && free == old(free)[1..] && r in old(pages) && r !in free
      ensures r != 0 ==> pages == old(pages)[r := Data(seq(PGSIZE, i => 5))] && r % PGSIZE == 0
    {
      r := freelist;
      if r != 0 {
        freelist := pages[r].next;
        free := free[1..];
        ListFrame(pages, pages[r := Data(seq(PGSIZE, i => 5))], freelist, free) by {
          forall x | x in free ensures x in pages { ListIn(pages, freelist, free, x); }
        }
        pages := pages[r := Data(seq(PGSIZE, i => 5))];
      }
    }

    /** kfree of a page that is not free: its panic is not reachable, and no page is freed twice. */
    method Kfree(pa: nat)
      requires Valid() && pa in pages && pa !in free
      modifies this
      ensures Valid() && free == [pa] + old(free) && pages == old(pages)[pa := Run(old(freelist))]
    {
      assert !(pa % PGSIZE != 0 || pa < start || pa >= stop);
      ListFrame(pages, pages[pa := Run(freelist)], freelist, free) by {
        forall x | x in free ensures x in pages { ListIn(pages, freelist, free, x); }
      }
      pages := pages[pa := Run(freelist)];
      freelist := pa;
      free := [pa] + free;
      assert free[1..] == old(free);
    }

    /** One level of walk: follow entry k of table a, or hang a fresh table there. */
    method Descend(a: nat, k: nat, alloc: bool, ghost s: Space) returns (b: nat, ghost s': Space)
      requires Holds(s) && a in s.tabs && !s.tabs[a].Leaf? && k < FANOUT && PosOk(Child(s.tabs[a], k))
      modifies this
      ensures Holds(s') && s'.root == s.root && s'.frames == s.frames
      ensures Moved(old(pages), old(free), s, pages, free, s')
      ensures View(pages, s.root) == old(View(pages, s.root))
      ensures b != 0 ==> b in s'.tabs && s'.tabs[b] == Child(s.tabs[a], k)
      ensures forall x :: x in s.tabs ==> x in s'.tabs && s'.tabs[x] == s.tabs[x]
      ensures b == 0 ==> TableAt(pages, s.root, Child(s.tabs[a], k)) == 0 && (alloc ==> free == [])
      ensures !alloc || b == 0 ==> pages == old(pages) && free == old(free) && s' == s
      ensures Kept(old(pages), pages, s.frames) && |free| <= old(|free|)
      ensures alloc && b != 0 ==> Took(s.tabs, old(|free|), s'.tabs, |free|, {Child(s.tabs[a], k)}, 0)
      ensures alloc && b == 0 ==> Short(s.tabs, old(|free|), {Child(s.tabs[a], k)}, 0)
    {
      hide Lookup, View, TreeOk, FreeList, Moved, Kept, Took, Short;
      TookOne(pages, s, Child(s.tabs[a], k), 0, |free|);
      SpaceKept(pages, s);
      MovedNot(pages, free, s);
      EntryTable(pages, s.root, s.tabs, a, k);
      s' := s;
      if IsValid(pages[a].ptes[k]) {
        b := Target(pages[a].ptes[k]);
      } else if !alloc {
        b := 0;
      } else {
        ghost var pg, fr := pages, free;
        FreeInPages();
        b := Kalloc();
        if b == 0 {
          return;
        }
        AttachSpace(pg, fr, s, a, k);
        TookOne(pg, s, Child(s.tabs[a], k), b, |free|);
        s' := Space(s.root, s.tabs[b := Child(s.tabs[a], k)], s.frames);
        assert a in PagesOf(s');
        LinkTable(a, k, b);
        assert pages == Attach(pg, a, k, b);
      }
    }

    /**
     walk: the bottom table for va (the entry is number PX(0, va) of it), or 0.
     With alloc it may add table pages; what the space maps does not change.
     */
    method Walk(root: nat, va: nat, alloc: bool, ghost s0: Space) returns (t: nat, ghost s: Space)
      requires Holds(s0) && root == s0.root && va < MAXVA
      modifies this
      ensures Holds(s) && s.root == root && s.frames == s0.frames
      ensures Moved(old(pages), old(free), s0, pages, free, s)
      ensures View(pages, root) == old(View(pages, root))
      ensures t != 0 ==> t in s.tabs && s.tabs[t] == PosAt(va / PGSIZE, 0)
      ensures t == 0 ==> !IsValid(Lookup(pages, root, va / PGSIZE)) && (alloc ==> free == [])
      ensures !alloc ==> pages == old(pages) && free == old(free) && s == s0
      ensures Kept(old(pages), pages, s.frames) && |free| <= old(|free|)
      ensures alloc && t != 0 ==> Took(s0.tabs, old(|free|), s.tabs, |free|, Steps(va / PGSIZE, 0), 0)
      ensures alloc && t == 0 ==> Short(s0.tabs, old(|free|), Steps(va / PGSIZE, 0), 0)
    {
      hide Lookup, View, FreeList, Moved, Kept, TreeOk, Px, Px2, Px1, Took, Short;
      TookNothing(s0.tabs, |free|);
      SpaceKept(pages, s0);
      PxVa(va);
      RootTable(pages, s0);
      MovedNot(pages, free, s0);
      t, s := root, s0;
      var level := 2;
      while level > 0
        invariant 0 <= level <= 2
        invariant Holds(s) && s.root == root && s.frames == s0.frames
        invariant Moved(old(pages), old(free), s0, pages, free, s)
        invariant View(pages, root) == old(View(pages, root))
        invariant t != 0 && t in s.tabs && s.tabs[t] == PosAt(va / PGSIZE, level)
        invariant !alloc ==> pages == old(pages) && free == old(free) && s == s0
        invariant Kept(old(pages), pages, s.frames) && |free| <= old(|free|)
        invariant alloc ==> Took(s0.tabs, old(|free|), s.tabs, |free|, Steps(va / PGSIZE, level), 0)
      {
        StepsDown(va / PGSIZE, level);
        ghost var pg, fr, s1 := pages, free, s;
        PxInjective(va / PGSIZE, va / PGSIZE);
        t, s := Descend(t, Px(level, va), alloc, s);
        KeptTwice(old(pages), pg, pages, s0.frames);
        MovedTwice(old(pages), old(free), s0, pg, fr, s1, pages, free, s);
        level := level - 1;
        ghost var step := {PosAt(va / PGSIZE, level)};
        if alloc && t != 0 {
          TookTwice(s0.tabs, old(|free|), s1.tabs, |fr|, Steps(va / PGSIZE, level + 1), 0, s.tabs, |free|, step, 0);
        }
        if t == 0 {
          if alloc {
            ShortAfter(s0.tabs, old(|free|), s1.tabs, |fr|, Steps(va / PGSIZE, level + 1), 0, step, 0);
            ShortMore(s0.tabs, old(|free|), Steps(va / PGSIZE, level), 0, Steps(va / PGSIZE, 0), 0);
          }
          NoTable(pages, root, va / PGSIZE, level);
          return;
        }
      }
    }

    /** *pte = v, through the pointer that walk returned for vpn. */
    method StoreEntry(t: nat, vpn: nat, pte: nat, ghost s: Space, ghost s': Space)
      requires Holds(s) && vpn < NPAGES && t in s.tabs && s.tabs[t] == PosAt(vpn, 0)
      requires IsValid(pte) ==> MapsPage(Flags(pte))
      requires s' == Space(s.root, s.tabs, s'.frames) && SubFrames(s'.frames, s.frames, vpn)
      modifies this
      ensures Valid() && SpaceOk(pages, s') && free == old(free) && pages.Keys == old(pages.Keys)
      ensures View(pages, s.root) == Stored(old(View(pages, s.root)), vpn, pte)
      ensures forall x :: x in pages && x != t ==> pages[x] == old(pages)[x]
      ensures Kept(old(pages), pages, s'.frames)
    {
      hide Lookup, View, FreeList, TreeOk, SpaceOk, Px0;
      ghost var pg := pages;
      StoreSpace(pages, s, vpn, t, pte, s'.frames);
      assert t in PagesOf(s);
      FreeInPages();
      pages := SetPte(pages, t, Px0(vpn), pte);
      ListFrame(pg, pages, freelist, free);
    }

    /** One turn of mappages. */
    method MapOne(root: nat, a: nat, pa: nat, perm: nat, ghost s0: Space) returns (ok: bool, ghost s: Space)
      requires Holds(s0) && root == s0.root && a % PGSIZE == 0 && a < MAXVA && a / PGSIZE !in View(pages, root)
      requires pa % PGSIZE == 0 && perm < 1024 && MapsPage(perm)
      modifies this
      ensures Holds(s) && s.root == root && s.frames == s0.frames
      ensures Moved(old(pages), old(free), s0, pages, free, s)
      ensures ok ==> View(pages, root) == old(View(pages, root))[a / PGSIZE := MakePte(pa, perm)]
      ensures !ok ==> View(pages, root) == old(View(pages, root)) && free == []
      ensures Kept(old(pages), pages, s.frames) && |free| <= old(|free|)
      ensures ok ==> Took(s0.tabs, old(|free|), s.tabs, |free|, Steps(a / PGSIZE, 0), 0)
      ensures !ok ==> Short(s0.tabs, old(|free|), Steps(a / PGSIZE, 0), 0)
    {
      hide Lookup, View, FreeList, TreeOk, SpaceOk, Moved, Kept, Px0, MakePte, Took, Short, Steps;
      var t;
      t, s := Walk(root, a, true, s0);
      if t == 0 {
        return false, s;
      }
      ViewIff(pages, root, a / PGSIZE);
      FreshKey(pages, s, a / PGSIZE);
      MakePteOk(pa, perm);
      ghost var pg, fr := pages, free;
      StoreEntry(t, a / PGSIZE, MakePte(pa, perm), s, s);
      KeptTwice(old(pages), pg, pages, s.frames);
      StoreMoves(pg, fr, s, pages, t);
      MovedTwice(old(pages), old(free), s0, pg, fr, s, pages, free, s);
      ok := true;
    }

    /**
     mappages: maps the pages that va .. va + size - 1 touches, in order; on
     failure, which needs an empty free list, the ones before the failing page.
     */
    method Mappages(root: nat, va: nat, size: nat, pa: nat, perm: nat, ghost s0: Space)
      returns (r: int, ghost k: nat, ghost s: Space)
      requires Holds(s0) && root == s0.root && 0 < size && va + size <= MAXVA
      requires pa % PGSIZE == 0 && perm < 1024 && MapsPage(perm)
      requires forall v :: va / PGSIZE <= v <= (va + size - 1) / PGSIZE ==> v !in View(pages, root)
      modifies this
      ensures Holds(s) && s.root == root && s.frames == s0.frames
      ensures Moved(old(pages), old(free), s0, pages, free, s) && Kept(old(pages), pages, s.frames)
      ensures |free| <= old(|free|)
      ensures View(pages, root) == old(View(pages, root)) + Range(va / PGSIZE, k, pa, perm)
      ensures r == 0 ==> k == (va + size - 1) / PGSIZE - va / PGSIZE + 1
      ensures r != 0 ==> r == -1 && k <= (va + size - 1) / PGSIZE - va / PGSIZE && free == []
      ensures r == 0 ==> Took(s0.tabs, old(|free|), s.tabs, |free|, Paths(va / PGSIZE, k), 0)
      ensures r != 0 ==> Short(s0.tabs, old(|free|),
                               Paths(va / PGSIZE, (va + size - 1) / PGSIZE - va / PGSIZE + 1), 0)
    {
      hide View, Holds, Moved, MakePte, Kept, Range, Took, Short, Steps;
      ghost var view, first := View(pages, root), va / PGSIZE;
      TookNothing(s0.tabs, |free|);
      var a := va / PGSIZE * PGSIZE;
      var last := (va + size - 1) / PGSIZE * PGSIZE;
      var p := pa;
      k, s := 0, s0;
      Start(s0);
      RangeMore(view, first, 0, pa, perm);
      while true
        invariant a == (first + k) * PGSIZE <= last < MAXVA && p == pa + k * PGSIZE
        invariant last == (va + size - 1) / PGSIZE * PGSIZE
        invariant Holds(s) && s.root == root && s.frames == s0.frames
        invariant Moved(old(pages), old(free), s0, pages, free, s) && Kept(old(pages), pages, s.frames)
        invariant View(pages, root) == view + Range(first, k, pa, perm) && |free| <= old(|free|)
        invariant Took(s0.tabs, old(|free|), s.tabs, |free|, Paths(first, k), 0)
        decreases last - a
      {
        ghost var pg, fr, s1 := pages, free, s;
        assert a / PGSIZE == first + k;
        var ok;
        ok, s := MapOne(root, a, p, perm, s);
        KeptTwice(old(pages), pg, pages, s.frames);
        MovedTwice(old(pages), old(free), s0, pg, fr, s1, pages, free, s);
        if !ok {
          ShortAfter(s0.tabs, old(|free|), s1.tabs, |fr|, Paths(first, k), 0, Steps(first + k, 0), 0);
          PathsGrow(first, k + 1, (va + size - 1) / PGSIZE - first + 1);
          ShortMore(s0.tabs, old(|free|), Paths(first, k + 1), 0,
                    Paths(first, (va + size - 1) / PGSIZE - first + 1), 0);
          return -1, k, s;
        }
        TookTwice(s0.tabs, old(|free|), s1.tabs, |fr|, Paths(first, k), 0, s.tabs, |free|, Steps(first + k, 0), 0);
        RangeMore(view, first, k, pa, perm);
        k := k + 1;
        if a == last {
          return 0, k, s;
        }
        a := a + PGSIZE;
        p := p + PGSIZE;
      }
    }

    /** The tests of uvmunmap's loop: walk and find the entry of a, unless it is not there to be found. */
    method FindEntry(root: nat, a: nat, ghost s: Space) returns (t: nat, mapped: bool)
      requires Holds(s) && root == s.root
      modifies this
      ensures Holds(s) && pages == old(pages) && free == old(free)
      ensures mapped <==> a / PGSIZE in View(pages, root)
      ensures mapped ==>
                && a < MAXVA && t in s.tabs && s.tabs[t] == PosAt(a / PGSIZE, 0) && IsTable(pages, t)
                && Px(0, a) == Px0(a / PGSIZE) < FANOUT
                && pages[t].ptes[Px0(a / PGSIZE)] == View(pages, root)[a / PGSIZE]
    {
      hide Lookup, View, FreeList, TreeOk, Px0, Px, Target, Moved, Kept;
      ViewKeys(pages, root);
      if a >= MAXVA {
        return 0, false;
      }
      ViewIff(pages, root, a / PGSIZE);
      ghost var s1;
      t, s1 := Walk(root, a, false, s);
      if t == 0 {
        return 0, false;
      }
      LookupAt(pages, root, s.tabs, a / PGSIZE, t);
      LeafEntry(pages, s, a / PGSIZE, t);
      PxVa(a);
      mapped := IsValid(pages[t].ptes[Px(0, a)]);
      assert mapped ==> Flags(pages[t].ptes[Px(0, a)]) != 1;
    }

    /** One turn of uvmunmap: free the frame if asked to, then clear the entry. */
    method UnmapOne(root: nat, a: nat, doFree: bool, ghost s0: Space) returns (mapped: bool, ghost s: Space)
      requires Holds(s0) && root == s0.root && a % PGSIZE == 0
      requires if doFree then a / PGSIZE in View(pages, root) ==> OwnsAt(View(pages, root), s0.frames, a / PGSIZE)
               else forall f :: f in s0.frames ==> s0.frames[f] != a / PGSIZE
      modifies this
      ensures mapped <==> a / PGSIZE in old(View(pages, root))
      ensures !mapped ==> Holds(s0) && s == s0 && pages == old(pages) && free == old(free)
      ensures mapped ==>
                && Holds(s) && s == Without(s0, a / PGSIZE, a / PGSIZE + 1)
                && Moved(old(pages), old(free), s0, pages, free, s) && Kept(old(pages), pages, s.frames)
                && View(pages, root) == old(View(pages, root)) - {a / PGSIZE}
                && |free| == old(|free|) + if doFree then 1 else 0
    {
      hide Lookup, View, FreeList, TreeOk, Px0, Px, Target, Moved, Without, Kept;
      ghost var vpn := a / PGSIZE;
      var t;
      t, mapped := FindEntry(root, a, s0);
      s := s0;
      if !mapped {
        return;
      }
      s := Without(s0, vpn, vpn + 1);
      WithoutRoot(s0, vpn, vpn + 1);
      WithoutOne(s0, vpn);
      Start(s0);
      ghost var pg, fr := pages, free;
      if doFree {
        var pa := Target(pages[t].ptes[Px(0, a)]);
        assert pa in PagesOf(s0);
        TableInPages(pages, s0, pa);
        Kfree(pa);
        FreeFrame(pg, fr, s0, pages, vpn, pa);
      }
      ghost var pg1, fr1 := pages, free;
      StoreEntry(t, a / PGSIZE, 0, s, s);
      StoreMoves(pg1, fr1, s, pages, t);
      MovedTwice(pg, fr, s0, pg1, fr1, s, pages, free, s);
      KeptTwice(pg, pg1, pages, s.frames);
    }

    /**
     uvmunmap: removes the given page numbers, and frees their frames if asked to.  It
     panics at an address inside a page, or else at the first page number that is not mapped.
     */
    method Uvmunmap(root: nat, va: nat, npages: nat, doFree: bool, ghost s0: Space)
      returns (panicked: bool, ghost done: nat, ghost s: Space)
      requires Holds(s0) && root == s0.root
      requires doFree ==> forall v :: va / PGSIZE <= v < va / PGSIZE + npages && v in View(pages, root)
                                      ==> OwnsAt(View(pages, root), s0.frames, v)
      requires !doFree ==> forall f :: f in s0.frames ==> !(va / PGSIZE <= s0.frames[f] < va / PGSIZE + npages)
      modifies this
      ensures panicked <==> va % PGSIZE != 0 || Hole(old(View(pages, root)), va / PGSIZE, va / PGSIZE + npages)
      ensures done <= npages && !Hole(old(View(pages, root)), va / PGSIZE, va / PGSIZE + done)
      ensures if panicked then va % PGSIZE == 0 ==> done < npages && va / PGSIZE + done !in old(View(pages, root))
              else done == npages
      ensures Holds(s) && s == Without(s0, va / PGSIZE, va / PGSIZE + done)
      ensures Moved(old(pages), old(free), s0, pages, free, s) && Kept(old(pages), pages, s.frames)
      ensures View(pages, root) == old(View(pages, root)) - Span(va / PGSIZE, va / PGSIZE + done)
      ensures |free| == old(|free|) + if doFree then done else 0
    {
      hide View, Holds, Moved, Kept, Without, OwnsAt, Span;
      ghost var first, view := va / PGSIZE, View(pages, root);
      Start(s0);
      WithoutMore(s0, first, first);
      SpanMore(view, first, first);
      s, done := s0, 0;
      if va % PGSIZE != 0 {
        return true, done, s;
      }
      var a := va;
      while a < va + npages * PGSIZE
        invariant done <= npages && a == (first + done) * PGSIZE
        invariant forall v :: first <= v < first + done ==> v in view
        invariant Holds(s) && s == Without(s0, first, first + done)
        invariant Moved(old(pages), old(free), s0, pages, free, s) && Kept(old(pages), pages, s.frames)
        invariant View(pages, root) == view - Span(first, first + done)
        invariant |free| == old(|free|) + if doFree then done else 0
      {
        ghost var pg, fr, s1 := pages, free, s;
        assert a / PGSIZE == first + done;
        WithoutRoot(s0, first, first + done);
        WithoutLess(s0, first, first + done, first + done);
        WithoutLess(s, first + done, first + done + 1, 0);
        if doFree && first + done in view {
          WithoutOwns(view, View(pages, root), s0, first, first + done, first + done);
        }
        var mapped;
        mapped, s := UnmapOne(root, a, doFree, s);
        if !mapped {
          return true, done, s;
        }
        MovedTwice(old(pages), old(free), s0, pg, fr, s1, pages, free, s);
        KeptLess(old(pages), pg, s1.frames, s.frames);
        KeptTwice(old(pages), pg, pages, s.frames);
        WithoutMore(s0, first, first + done);
        SpanMore(view, first, first + done);
        done := done + 1;
        a := a + PGSIZE;
      }
      panicked := false;
    }

    /** kalloc by an operation on the space s: the page is then held by neither. */
    method Take(ghost s: Space) returns (mem: nat)
      requires Holds(s)
      modifies this
      ensures Holds(s) && View(pages, s.root) == old(View(pages, s.root))
      ensures mem == 0 <==> old(free) == []
      ensures mem == 0 ==> pages == old(pages) && free == old(free)
      ensures mem != 0 ==> mem in old(pages) && mem !in PagesOf(s) && mem !in free && old(free) == [mem] + free
      ensures mem != 0 ==> mem % PGSIZE == 0 && pages == old(pages)[mem := Data(seq(PGSIZE, i => 5))]
    {
      hide View, TreeOk, FreeList, SpaceOk;
      ghost var pg := pages;
      mem := Kalloc();
      if mem != 0 {
        assert mem in ToSet(old(free));
        forall a | a in PagesOf(s) ensures a in pg { TableInPages(pg, s, a); }
        SpaceFrame(pg, pages, s);
      }
    }

    /** Overwrite a held page. */
    method Fill(mem: nat, bytes: seq<nat>, ghost s: Space)
      requires Holds(s) && mem in pages && mem !in free && mem !in PagesOf(s) && |bytes| == PGSIZE
      modifies this`pages
      ensures Holds(s) && pages == old(pages)[mem := Data(bytes)] && View(pages, s.root) == old(View(pages, s.root))
    {
      hide View, TreeOk, FreeList, SpaceOk;
      ghost var pg := pages;
      FreeInPages();
      pages := pages[mem := Data(bytes)];
      ListFrame(pg, pages, freelist, free);
      forall a | a in PagesOf(s) ensures a in pg { TableInPages(pg, s, a); }
      SpaceFrame(pg, pages, s);
    }

    /** kfree of a held page. */
    method Give(mem: nat, ghost s: Space)
      requires Holds(s) && mem in pages && mem !in free && mem !in PagesOf(s)
      modifies this
      ensures Holds(s) && free == [mem] + old(free) && View(pages, s.root) == old(View(pages, s.root))
      ensures Moved(old(pages), [mem] + old(free), s, pages, free, s) && Kept(old(pages), pages, s.frames)
    {
      hide View, TreeOk, FreeList, SpaceOk;
      ghost var pg := pages;
      Kfree(mem);
      forall a | a in PagesOf(s) ensures a in pg { TableInPages(pg, s, a); }
      SpaceFrame(pg, pages, s);
      assert ToSet([mem] + old(free)) == {mem} + ToSet(old(free));
    }

    /**
     A turn of uvmalloc or uvmcopy: take a page, fill it, map it at a; if the
     mapping fails give the page back.
     */
    method PlaceOne(root: nat, a: nat, bytes: seq<nat>, perm: nat,
                    ghost s0: Space) returns (ok: bool, mem: nat, ghost s: Space)
      requires Holds(s0) && root == s0.root && a % PGSIZE == 0 && a < MAXVA && a / PGSIZE !in View(pages, root)
      requires |bytes| == PGSIZE && perm < 1024 && MapsPage(perm)
      modifies this
      ensures Holds(s) && s.root == root
      ensures Moved(old(pages), old(free), s0, pages, free, s) && Kept(old(pages), pages, s0.frames)
      ensures ok ==>
                && mem !in s0.frames && s.frames == s0.frames[mem := a / PGSIZE]
                && mem in pages && pages[mem] == Data(bytes) && mem % PGSIZE == 0
                && View(pages, root) == old(View(pages, root))[a / PGSIZE := MakePte(mem, perm)]
                && mem in old(free) && |free| < old(|free|)
      ensures !ok ==> s.frames == s0.frames && View(pages, root) == old(View(pages, root)) && |free| <= 1
      ensures ok ==> Took(s0.tabs, old(|free|), s.tabs, |free|, Steps(a / PGSIZE, 0), 1)
      ensures !ok ==> Short(s0.tabs, old(|free|), Steps(a / PGSIZE, 0), 1)
    {
      hide View, TreeOk, FreeList, SpaceOk, Moved, Kept, MakePte, Target, Steps, Placed, Missing;
      ghost var pg, fr := pages, free;
      MovedNot(pg, fr, s0);
      SpaceKept(pg, s0);
      mem := Take(s0);
      if mem == 0 {
        return false, 0, s0;
      }
      Fill(mem, bytes, s0);
      ghost var pg1, fr1 := pages, free;
      assert pages == pg[mem := Data(bytes)];
      HeldFilled(pg, fr, s0, mem, Data(bytes));
      var r;
      ghost var k;
      assert (a + PGSIZE - 1) / PGSIZE == a / PGSIZE;
      r, k, s := Mappages(root, a, PGSIZE, mem, perm, s0);
      OnePath(a / PGSIZE);
      MovedHeld(pg1, fr1, s0, pages, free, s, mem);
      MovedTwice(pg, fr, s0, pg1, [mem] + fr1, s0, pages, [mem] + free, s);
      KeptTwice(pg, pg1, pages, s0.frames);
      OneRange(View(pg1, root), a / PGSIZE, mem, perm);
      ghost var pg2, fr2 := pages, free;
      if r != 0 {
        Give(mem, s);
        MovedTwice(pg, fr, s0, pg2, [mem] + fr2, s, pages, free, s);
        KeptTwice(pg, pg2, pages, s0.frames);
        return false, mem, s;
      }
      MakePteOk(mem, perm);
      Adopt(pages, free, s, mem, a / PGSIZE);
      ghost var s1 := s;
      s := Space(root, s.tabs, s.frames[mem := a / PGSIZE]);
      MovedTwice(pg, fr, s0, pages, [mem] + free, s1, pages, free, s);
      ok := true;
    }

    /**
     uvmdealloc: frees the pages between the two sizes, or panics if one of them is not
     there.  Its count of pages is a C int, which 2^31 pages would overflow.
     */
    method Uvmdealloc(root: nat, oldsz: nat, newsz: nat,
                      ghost s0: Space) returns (panicked: bool, r: nat, ghost s: Space)
      requires Holds(s0) && root == s0.root && Up(oldsz) < 0x8000_0000
      requires forall v :: Up(newsz) <= v < Up(oldsz) && v in View(pages, root) ==>
                 OwnsAt(View(pages, root), s0.frames, v)
      modifies this
      ensures panicked <==> newsz < oldsz && Hole(old(View(pages, root)), Up(newsz), Up(oldsz))
      ensures Holds(s) && Moved(old(pages), old(free), s0, pages, free, s) && Kept(old(pages), pages, s.frames)
      ensures s.root == root
      ensures !panicked ==> r == if newsz >= oldsz then oldsz else newsz
      ensures newsz >= oldsz ==> pages == old(pages) && free == old(free) && s == s0
      ensures !panicked && newsz < oldsz ==>
                && s == Without(s0, Up(newsz), Up(oldsz))
                && View(pages, root) == old(View(pages, root)) - Span(Up(newsz), Up(oldsz))
                && |free| == old(|free|) + Up(oldsz) - Up(newsz)
    {
      hide View, Valid, SpaceOk, Moved, Kept, Target, OwnsAt;
      MovedNot(pages, free, s0);
      SpaceKept(pages, s0);
      s, panicked := s0, false;
      if newsz >= oldsz {
        return false, oldsz, s;
      }
      WithoutMore(s0, Up(newsz), Up(newsz));
      if Up(newsz) * PGSIZE < Up(oldsz) * PGSIZE {
        var npages := (Up(oldsz) * PGSIZE - Up(newsz) * PGSIZE) / PGSIZE;
        assert npages == Up(oldsz) - Up(newsz) < 0x8000_0000 && Up(newsz) * PGSIZE / PGSIZE == Up(newsz);
        ghost var done;
        panicked, done, s := Uvmunmap(root, Up(newsz) * PGSIZE, npages, true, s0);
      }
      r := newsz;
    }

    /** The call of uvmdealloc with which a failing uvmalloc gives back what it had added. */
    method Undo(root: nat, a: nat, base: nat, ghost view: map<nat, nat>, ghost frames: map<nat, nat>,
                ghost perm: nat -> nat, ghost content: nat -> seq<nat>, ghost s1: Space, ghost pg0: Pages,
                ghost fr0: seq<nat>, ghost s0: Space)
      returns (ghost s: Space)
      requires Holds(s1) && root == s1.root && a % PGSIZE == base % PGSIZE == 0 && base <= a <= MAXVA
      requires Moved(pg0, fr0, s0, pages, free, s1) && Kept(pg0, pages, frames)
      requires Added(view, frames, pages, s1, base / PGSIZE, a / PGSIZE - base / PGSIZE, perm, content)
      requires forall v :: base / PGSIZE <= v < a / PGSIZE ==> v !in view
      requires forall f :: f in frames ==> frames[f] < base / PGSIZE
      modifies this
      ensures Holds(s) && s.root == root && View(pages, root) == view && s.frames == frames
      ensures Moved(pg0, fr0, s0, pages, free, s) && Kept(pg0, pages, frames)
    {
      hide View, Holds, Moved, Kept, Target, MakePte, Added, OwnsAt, Without;
      ghost var pg, fr, first, i := pages, free, base / PGSIZE, a / PGSIZE - base / PGSIZE;
      AddedOwns(view, frames, pages, s1, first, i, perm, content);
      AddedUndone(view, frames, pages, s1, first, i, perm, content);
      WithoutMore(s1, first, first);
      WithoutRoot(s1, first, first + i);
      assert Up(a) == first + i && Up(base) == first;
      NoHole(View(pages, root), s1.frames, first, first + i);
      var panicked, r;
      panicked, r, s := Uvmdealloc(root, a, base, s1);
      MovedTwice(pg0, fr0, s0, pg, fr, s1, pages, free, s);
      KeptTwice(pg0, pg, pages, frames);
    }

    /**
     uvmalloc: on success the space gains zeroed, owned pages for exactly the new
     sizes; on failure its map and frames are what they were and no page is lost.
     Physical memory runs out before the address space does, so walk cannot panic.
     */
    method Uvmalloc(root: nat, oldsz: nat, newsz: nat, xperm: nat, ghost s0: Space) returns (r: nat, ghost s: Space)
      requires Holds(s0) && root == s0.root && xperm in {0, 4, 8, 12}
      requires Up(oldsz) + |free| < NPAGES - 2
      requires forall v :: Up(oldsz) <= v < NPAGES - 2 ==> v !in View(pages, root)
      requires forall a :: a in s0.frames ==> s0.frames[a] < Up(oldsz)
      modifies this
      ensures Holds(s) && s.root == root
      ensures Moved(old(pages), old(free), s0, pages, free, s) && Kept(old(pages), pages, s0.frames)
      ensures newsz < oldsz ==> r == oldsz && s == s0 && pages == old(pages) && free == old(free)
      ensures newsz >= oldsz ==> r == newsz || r == 0
      ensures newsz >= oldsz && r == newsz ==>
                Added(old(View(pages, root)), s0.frames, pages, s, Up(oldsz), Growth(oldsz, newsz), Perm(xperm),
                  Zeroed())
      ensures newsz >= oldsz && r != newsz ==> View(pages, root) == old(View(pages, root)) && s.frames == s0.frames
      ensures newsz >= oldsz ==>
                (r == newsz <==>
                   old(|free|) >= Growth(oldsz, newsz) + Missing(s0.tabs, Paths(Up(oldsz), Growth(oldsz, newsz))))
    {
      hide View, Holds, Moved, Kept, MakePte, Added, OwnsAt, Without, Took, Short, Missing, Steps;
      ghost var pg0, fr0 := pages, free;
      ghost var view, first := View(pages, root), Up(oldsz);
      ghost var perm, zero := Perm(xperm), Zeroed();
      Start(s0);
      s := s0;
      if newsz < oldsz {
        return oldsz, s;
      }
      AddedNone(pages, s0, first, perm, zero);
      TookNothing(s0.tabs, |free|);
      ghost var i := 0;
      var a := Up(oldsz) * PGSIZE;
      while a < newsz
        invariant first + i <= Up(newsz) && a == (first + i) * PGSIZE
        invariant Holds(s) && s.root == root && i + |free| <= |fr0|
        invariant Moved(pg0, fr0, s0, pages, free, s) && Kept(pg0, pages, s0.frames)
        invariant Added(view, s0.frames, pages, s, first, i, perm, zero)
        invariant Took(s0.tabs, |fr0|, s.tabs, |free|, Paths(first, i), i)
      {
        ghost var pg, fr, s1 := pages, free, s;
        assert a / PGSIZE == first + i;
        AddedOwns(view, s0.frames, pages, s, first, i, perm, zero);
        var ok, mem;
        ok, mem, s := PlaceOne(root, a, ZeroPage(), 18 + xperm, s);
        MovedTwice(pg0, fr0, s0, pg, fr, s1, pages, free, s);
        KeptLess(pg, pages, s1.frames, s0.frames);
        KeptTwice(pg0, pg, pages, s0.frames);
        if !ok {
          ShortAfter(s0.tabs, |fr0|, s1.tabs, |fr|, Paths(first, i), i, Steps(first + i, 0), 1);
          PathsGrow(first, i + 1, Growth(oldsz, newsz));
          ShortMore(s0.tabs, |fr0|, Paths(first, i + 1), i + 1,
                    Paths(first, Growth(oldsz, newsz)), Growth(oldsz, newsz));
          Enough(s0.tabs, |fr0|, s.tabs, |free|, Paths(first, Growth(oldsz, newsz)), Growth(oldsz, newsz));
          AddedSame(view, s0.frames, pg, s1, first, i, perm, zero, pages, s);
          s := Undo(root, a, Up(oldsz) * PGSIZE, view, s0.frames, perm, zero, s, pg0, fr0, s0);
          return 0, s;
        }
        AddedOne(view, s0.frames, pg, s1, first, i, perm, zero, pages, s, mem);
        TookTwice(s0.tabs, |fr0|, s1.tabs, |fr|, Paths(first, i), i, s.tabs, |free|, Steps(first + i, 0), 1);
        i := i + 1;
        a := a + PGSIZE;
      }
      Enough(s0.tabs, |fr0|, s.tabs, |free|, Paths(first, i), i);
      r := newsz;
    }

    /** Find the entry of a mapped page that the space p owns, while working on s. */
    method EntryOf(root: nat, a: nat, ghost p: Space, ghost s: Space) returns (pte: nat)
      requires Holds(s) && Holds(p) && root == p.root && a < MAXVA && OwnsAt(View(pages, root), p.frames, a / PGSIZE)
      modifies this
      ensures Holds(s) && pages == old(pages) && free == old(free)
      ensures pte == View(pages, root)[a / PGSIZE] && IsValid(pte) && MapsPage(Flags(pte)) && Flags(pte) < 1024
      ensures IsData(pages, Target(pte))
    {
      hide Lookup, View, FreeList, TreeOk, Px0, Target;
      ViewIff(pages, root, a / PGSIZE);
      var t;
      ghost var p1;
      t, p1 := Walk(root, a, false, p);
      LookupAt(pages, root, p.tabs, a / PGSIZE, t);
      LeafEntry(pages, p, a / PGSIZE, t);
      PxVa(a);
      pte := pages[t].ptes[Px(0, a)];
      FlagsSmall(pte);
    }

    /**
     uvmcopy: on success the child has, at every page number, its own frame with
     the parent's flags and bytes; on failure its map and frames are unchanged.
     The parent is untouched either way.
     */
    method Uvmcopy(oldroot: nat, newroot: nat, sz: nat, ghost p: Space,
                   ghost s0: Space) returns (r: int, ghost s: Space)
      requires Holds(s0) && newroot == s0.root && s0.frames == map[]
      requires Aside(pages, free, s0, p) && oldroot == p.root && Up(sz) < NPAGES
      requires forall v :: 0 <= v < Up(sz) ==> OwnsAt(View(pages, oldroot), p.frames, v) && v !in View(pages, newroot)
      modifies this
      ensures Holds(s) && s.root == newroot && Aside(pages, free, s, p)
      ensures Moved(old(pages), old(free), s0, pages, free, s)
      ensures View(pages, oldroot) == old(View(pages, oldroot)) && Kept(old(pages), pages, p.frames)
      ensures r == 0 ==> Added(old(View(pages, newroot)), map[], pages, s, 0, Up(sz),
                               FlagsIn(old(View(pages, oldroot))), old(BytesIn(pages, View(pages, oldroot))))
      ensures r != 0 ==> r == -1 && View(pages, newroot) == old(View(pages, newroot)) && s.frames == map[]
      ensures r == 0 <==> old(|free|) >= Up(sz) + Missing(s0.tabs, Paths(0, Up(sz)))
    {
      hide View, Holds, Aside, Moved, Kept, Target, MakePte, Added, Flags, OwnsAt, FlagsIn, BytesIn, MapsPage,
           Took, Short, Missing, Steps;
      ghost var pg0, fr0 := pages, free;
      ghost var view, mine := View(pages, oldroot), View(pages, newroot);
      ghost var perm, content := FlagsIn(view), BytesIn(pages, view);
      Start(s0);
      AsideHolds(s0, p);
      AddedNone(pages, s0, 0, perm, content);
      TookNothing(s0.tabs, |free|);
      s := s0;
      ghost var i := 0;
      var a := 0;
      while a < sz
        invariant i <= Up(sz) && a == i * PGSIZE
        invariant Holds(s) && s.root == newroot && Aside(pages, free, s, p)
        invariant Moved(pg0, fr0, s0, pages, free, s)
        invariant View(pages, oldroot) == view && Kept(pg0, pages, p.frames)
        invariant Added(mine, map[], pages, s, 0, i, perm, content)
        invariant Took(s0.tabs, |fr0|, s.tabs, |free|, Paths(0, i), i)
      {
        ghost var pg, fr, s1 := pages, free, s;
        assert a / PGSIZE == i;
        AddedOwns(mine, map[], pages, s, 0, i, perm, content);
        AsideHolds(s, p);
        var pte := EntryOf(oldroot, a, p, s);
        CopyOf(pg0, pages, view, p.frames, i);
        var ok, mem;
        ok, mem, s := PlaceOne(newroot, a, pages[Target(pte)].bytes, Flags(pte), s);
        MovedTwice(pg0, fr0, s0, pg, fr, s1, pages, free, s);
        Apart(pg, fr, s1, pages, free, s, p);
        KeptTwice(pg0, pg, pages, p.frames);
        if !ok {
          ShortAfter(s0.tabs, |fr0|, s1.tabs, |fr|, Paths(0, i), i, Steps(0 + i, 0), 1);
          PathsGrow(0, i + 1, Up(sz));
          ShortMore(s0.tabs, |fr0|, Paths(0, i + 1), i + 1, Paths(0, Up(sz)), Up(sz));
          Enough(s0.tabs, |fr0|, s.tabs, |free|, Paths(0, Up(sz)), Up(sz));
          AddedSame(mine, map[], pg, s1, 0, i, perm, content, pages, s);
          r, s := CopyFails(newroot, a, p, mine, perm, content, s, pg0, fr0, s0);
          return;
        }
        AddedOne(mine, map[], pg, s1, 0, i, perm, content, pages, s, mem);
        TookTwice(s0.tabs, |fr0|, s1.tabs, |fr|, Paths(0, i), i, s.tabs, |free|, Steps(0 + i, 0), 1);
        i := i + 1;
        a := a + PGSIZE;
      }
      Enough(s0.tabs, |fr0|, s.tabs, |free|, Paths(0, i), i);
      r := 0;
    }

    /** uvmcopy's err: unmap and free what was copied so far. */
    method CopyFails(root: nat, a: nat, ghost p: Space, ghost view: map<nat, nat>, ghost perm: nat -> nat,
                     ghost content: nat -> seq<nat>, ghost s1: Space, ghost pg0: Pages, ghost fr0: seq<nat>,
                     ghost s0: Space)
      returns (r: int, ghost s: Space)
      requires Holds(s1) && root == s1.root && Aside(pages, free, s1, p) && a % PGSIZE == 0 && a <= MAXVA
      requires Moved(pg0, fr0, s0, pages, free, s1) && Kept(pg0, pages, p.frames)
      requires Added(view, map[], pages, s1, 0, a / PGSIZE, perm, content)
      requires forall v :: 0 <= v < a / PGSIZE ==> v !in view
      modifies this
      ensures Holds(s) && s.root == root && Aside(pages, free, s, p) && r == -1
      ensures Moved(pg0, fr0, s0, pages, free, s) && Kept(pg0, pages, p.frames)
      ensures View(pages, p.root) == old(View(pages, p.root))
      ensures View(pages, root) == view && s.frames == map[]
    {
      hide View, Holds, Aside, Moved, Kept, Target, MakePte, Added, OwnsAt, Without;
      ghost var pg, fr, i := pages, free, a / PGSIZE;
      AddedOwns(view, map[], pages, s1, 0, i, perm, content);
      AddedUndone(view, map[], pages, s1, 0, i, perm, content);
      WithoutRoot(s1, 0, i);
      NoHole(View(pages, root), s1.frames, 0, i);
      var panicked;
      ghost var done;
      panicked, done, s := Uvmunmap(root, 0, a / PGSIZE, true, s1);
      MovedTwice(pg0, fr0, s0, pg, fr, s1, pages, free, s);
      Apart(pg, fr, s1, pages, free, s, p);
      KeptTwice(pg0, pg, pages, p.frames);
      r := -1;
    }

    /** uvmcreate: a fresh, empty address space, or 0. */
    method Uvmcreate() returns (root: nat, ghost s: Space)
      requires Valid()
      modifies this
      ensures Valid() && (root == 0 <==> old(free) == [])
      ensures root == 0 ==> pages == old(pages) && free == old(free)
      ensures root != 0 ==>
                && Holds(s) && s == Space(root, map[root := Root], map[]) && View(pages, root) == map[]
                && old(free) == [root] + free && root in old(pages) && pages == old(pages)[root := EmptyTable()]
    {
      hide FreeList, View, TreeOk;
      s := Space(0, map[], map[]);
      root := Kalloc();
      if root != 0 {
        ghost var pg := pages;
        FreeInPages();
        pages := pages[root := Table(seq(FANOUT, i => 0))];
        ListFrame(pg, pages, freelist, free);
        FreshTree(pages, root);
        s := Space(root, map[root := Root], map[]);
      }
    }

    /**
     freewalk: frees every table of the subtree, each once; "freewalk: leaf" is
     not reachable and kfree never meets a free page.
     */
    method Freewalk(t: nat, ghost tabs: Tables, ghost p: Pos)
      requires Valid() && t in tabs && tabs[t] == p && Subtree(pages, tabs, p) && TablesUnder(tabs, p) !! ToSet(free)
      modifies this
      ensures Valid() && ToSet(free) == old(ToSet(free)) + TablesUnder(tabs, p)
      ensures pages.Keys == old(pages.Keys)
      ensures forall x :: x in pages && x !in TablesUnder(tabs, p) ==> pages[x] == old(pages)[x]
      decreases Depth(p)
    {
      hide FreeList, TablesUnder, Below, Subtree, RangeOk, Target, Flags, IsValid;
      ghost var pg, fr := pages, free;
      BelowAll(pages, tabs, p, t);
      BelowNone(tabs, p);
      for i := 0 to FANOUT
        invariant Valid() && pages.Keys == pg.Keys && IsTable(pages, t) && t !in ToSet(free)
        invariant ToSet(free) == ToSet(fr) + Below(tabs, p, i)
        invariant forall k :: i <= k < FANOUT ==> pages[t].ptes[k] == pg[t].ptes[k]
        invariant forall x :: x in pages && x != t && x !in Below(tabs, p, i) ==> pages[x] == pg[x]
      {
        var pte := pages[t].ptes[i];
        if IsValid(pte) && !MapsPage(Flags(pte)) {
          ghost var pg1, fr1 := pages, free;
          EntryChild(pg, tabs, p, t, i, pg1, fr, fr1);
          var child := Target(pte);
          Freewalk(child, tabs, Child(p, i));
          SetEntry(t, i, 0);
        } else if IsValid(pte) {
          BadEntry(pg, tabs, p, t, i);
          assert false;
        } else {
          BelowSame(pg, tabs, p, t, i);
        }
      }
      Kfree(t);
      assert ToSet(free) == {t} + ToSet(fr) + Below(tabs, p, FANOUT);
    }

    /**
     uvmfree, for a space that maps exactly the owned pages below sz: every frame and
     every page-table page goes back to the free list.
     */
    method Uvmfree(root: nat, sz: nat, ghost s: Space)
      requires Holds(s) && root == s.root && Up(sz) <= NPAGES
      requires forall v :: 0 <= v < Up(sz) ==> OwnsAt(View(pages, root), s.frames, v)
      requires forall v :: v in View(pages, root) ==> v < Up(sz)
      modifies this
      ensures Valid() && ToSet(free) == old(ToSet(free)) + PagesOf(s)
      ensures pages.Keys == old(pages.Keys)
      ensures forall x :: x in pages && x !in old(free) && x !in PagesOf(s) ==> pages[x] == old(pages)[x]
    {
      hide View, FreeList, TreeOk, Target, OwnsAt, TablesUnder, Subtree;
      ghost var pg, fr := pages, free;
      ghost var s1 := s;
      AllFrames(pages, s, Up(sz));
      Start(s);
      SpanMore(View(pages, root), 0, 0);
      if sz > 0 {
        NoHole(View(pages, root), s.frames, 0, Up(sz));
        var panicked;
        ghost var done;
        panicked, done, s1 := Uvmunmap(root, 0, Up(sz) * PGSIZE / PGSIZE, true, s);
      }
      assert View(pages, root) == map[];
      EmptyTree(pages, root, s1.tabs);
      AllTables(s1.tabs);
      RootTable(pages, s1);
      Freewalk(root, s1.tabs, Root);
    }

    /** pagetable[i] = v, for a page that is no longer part of the free list's business. */
    method SetEntry(t: nat, i: nat, v: nat)
      requires Valid() && IsTable(pages, t) && t !in free && i < FANOUT
      modifies this`pages
      ensures Valid() && pages == SetPte(old(pages), t, i, v)
    {
      ghost var pg := pages;
      FreeInPages();
      pages := SetPte(pages, t, i, v);
      ListFrame(pg, pages, freelist, free);
    }

    /** memset the new table and point the entry at it. */
    method LinkTable(a: nat, k: nat, b: nat)
      requires Valid() && IsTable(pages, a) && k < FANOUT && b in pages && b != a && a !in free && b !in free
      modifies this
      ensures Valid() && pages == Attach(old(pages), a, k, b) && free == old(free)
    {
      ghost var pg := pages;
      FreeInPages();
      pages := pages[b := Table(seq(FANOUT, i => 0))];
      pages := SetPte(pages, a, k, MakePte(b, 0));
      ListFrame(pg, pages, freelist, free);
    }

    /** Where every loop over a space starts: nothing moved yet. */
    lemma {:induction false} Start(s: Space)
      requires Holds(s)
      ensures Moved(pages, free, s, pages, free, s) && Kept(pages, pages, s.frames)
    {
    }

    lemma {:induction false} AsideHolds(s: Space, p: Space)
      requires Holds(s) && Aside(pages, free, s, p)
      ensures Holds(p) && Kept(pages, pages, p.frames)
    {
      hide SpaceOk, FreeList, RangeOk;
      SpaceKept(pages, p);
    }

    lemma {:induction false} FreeInPages()
      requires Valid()
      ensures forall x :: x in free ==> x in pages && x != 0
    {
      forall x | x in free ensures x in pages && x != 0 {
        ListIn(pages, freelist, free, x);
      }
    }
  }
}
