/**
 Sv39 page tables as kernel/vm.c builds them: table pages of 512 entries linked
 in three levels.  A user address space is addressed by page number; only the
 lower half of the 39-bit space is used (MAXVA).
 */
module PageTable {

  const PGSIZE: nat := 4096
  const FANOUT: nat := 512
  const HALF: nat := 256            // root entries below MAXVA
  const NPAGES: nat := 0x400_0000   // MAXVA / PGSIZE

  /** A page of physical memory: on the free list, a page table, or data. */
  datatype Page = Run(next: nat) | Table(ptes: seq<nat>) | Data(bytes: seq<nat>)
  type Pages = map<nat, Page>

  // ----- entries --------------------------------------------------------------------

  predicate IsValid(pte: nat) {
    pte % 2 == 1
  }

  /** PTE2PA */
  function Target(pte: nat): (pa: nat) {
    pte / 1024 * PGSIZE
  }

  /** PTE_FLAGS */
  function Flags(pte: nat): (f: nat) {
    pte % 1024
  }

  /** PTE_R, PTE_W or PTE_X is set: the entry maps a page. */
  predicate MapsPage(flags: nat) {
    flags / 2 % 8 != 0
  }

  predicate UserFlag(flags: nat) {
    flags / 16 % 2 == 1
  }

  function WithValid(perm: nat): (f: nat) {
    if perm % 2 == 1 then perm else perm + 1
  }

  /** PA2PTE(pa) | perm | PTE_V */
  function MakePte(pa: nat, perm: nat): (pte: nat) {
    pa / PGSIZE * 1024 + WithValid(perm)
  }

  lemma {:induction false} MakePteOk(pa: nat, perm: nat)
    requires pa % PGSIZE == 0 && perm < 1024
    ensures IsValid(MakePte(pa, perm)) && Target(MakePte(pa, perm)) == pa && Flags(MakePte(pa, perm)) == WithValid(perm)
  {
    var q, f := pa / PGSIZE, WithValid(perm);
    assert q * 1024 <= q * 1024 + f < (q + 1) * 1024;
    assert (q * 1024 + f) / 1024 == q && (q * 1024 + f) % 1024 == f;
    assert pa == q * PGSIZE;
  }

  // ----- the tree -------------------------------------------------------------------

  /** Where a table page stands: the root, under root entry i, or under entry j of that one. */
  datatype Pos = Root | Mid(i: nat) | Leaf(i: nat, j: nat)

  predicate PosOk(p: Pos) {
    match p
    case Root => true
    case Mid(i) => i < HALF
    case Leaf(i, j) => i < HALF && j < FANOUT
  }

  predicate IsTable(pg: Pages, a: nat) {
    a in pg && pg[a].Table? && |pg[a].ptes| == FANOUT
  }

  /** The table that entry k of table a points to, or 0. */
  function Follow(pg: Pages, a: nat, k: nat): (b: nat)
    requires k < FANOUT
  {
    if a != 0 && IsTable(pg, a) && IsValid(pg[a].ptes[k]) then Target(pg[a].ptes[k]) else 0
  }

  function TableAt(pg: Pages, root: nat, p: Pos): (a: nat)
    requires PosOk(p)
  {
    match p
    case Root => root
    case Mid(i) => Follow(pg, root, i)
    case Leaf(i, j) => Follow(pg, Follow(pg, root, i), j)
  }

  type Tables = map<nat, Pos>

  /**
   An unshared tree: `tabs` inverts TableAt, so every table page is reached in
   exactly one way; inner entries only point to tables, bottom entries only to pages.
   */
  ghost predicate TreeOk(pg: Pages, root: nat, tabs: Tables) {
    && root in tabs && tabs[root] == Root && 0 !in tabs
    && (IsTable(pg, root) ==> forall k :: HALF <= k < FANOUT ==> !IsValid(pg[root].ptes[k]))
    && (forall a :: a in tabs ==> IsTable(pg, a) && PosOk(tabs[a]) && TableAt(pg, root, tabs[a]) == a)
    && (forall p :: PosOk(p) && TableAt(pg, root, p) != 0 ==>
         TableAt(pg, root, p) in tabs && tabs[TableAt(pg, root, p)] == p)
    && (forall a, k :: a in tabs && 0 <= k < FANOUT && IsValid(pg[a].ptes[k]) ==>
          if tabs[a].Leaf? then MapsPage(Flags(pg[a].ptes[k]))
          else Flags(pg[a].ptes[k]) == 1 && Target(pg[a].ptes[k]) != 0)
  }

  // ----- the map --------------------------------------------------------------------

  function Px2(vpn: nat): (i: nat) { vpn / 0x4_0000 }
  function Px1(vpn: nat): (j: nat) { vpn / FANOUT % FANOUT }
  function Px0(vpn: nat): (k: nat) { vpn % FANOUT }

  /** The entry for a page number: what walk finds, 0 where it finds no table. */
  function Lookup(pg: Pages, root: nat, vpn: nat): (pte: nat)
    requires vpn < NPAGES
  {
    var a := TableAt(pg, root, Leaf(Px2(vpn), Px1(vpn)));
    if a != 0 && IsTable(pg, a) then pg[a].ptes[Px0(vpn)] else 0
  }

  lemma {:induction false} PxInjective(u: nat, v: nat)
    requires u < NPAGES && v < NPAGES
    ensures Px2(u) < HALF && Px1(u) < FANOUT && Px0(u) < FANOUT
    ensures Px2(u) == Px2(v) && Px1(u) == Px1(v) && Px0(u) == Px0(v) ==> u == v
  {
    assert u == Px2(u) * 0x4_0000 + Px1(u) * FANOUT + Px0(u);
    assert v == Px2(v) * 0x4_0000 + Px1(v) * FANOUT + Px0(v);
  }

  function SetPte(pg: Pages, a: nat, k: nat, pte: nat): (pg': Pages)
    requires IsTable(pg, a) && k < FANOUT
  {
    pg[a := Table(pg[a].ptes[k := pte])]
  }

  /** The tree and its map depend on its table pages only. */
  lemma {:induction false} TreeFrame(pg: Pages, pg': Pages, root: nat, tabs: Tables)
    requires TreeOk(pg, root, tabs)
    requires forall a :: a in tabs ==> a in pg' && pg'[a] == pg[a]
    ensures TreeOk(pg', root, tabs)
    ensures forall vpn :: 0 <= vpn < NPAGES ==> Lookup(pg', root, vpn) == Lookup(pg, root, vpn)
  {
    forall p | PosOk(p) ensures TableAt(pg', root, p) == TableAt(pg, root, p) {
      TableAtFrame(pg, pg', root, tabs, p);
    }
    forall vpn | 0 <= vpn < NPAGES ensures Lookup(pg', root, vpn) == Lookup(pg, root, vpn) {
      PxInjective(vpn, vpn);
      assert TableAt(pg', root, Leaf(Px2(vpn), Px1(vpn))) == TableAt(pg, root, Leaf(Px2(vpn), Px1(vpn)));
    }
  }

  lemma {:induction false} TableAtFrame(pg: Pages, pg': Pages, root: nat, tabs: Tables, p: Pos)
    requires TreeOk(pg, root, tabs) && PosOk(p)
    requires forall a :: a in tabs ==> a in pg' && pg'[a] == pg[a]
    ensures TableAt(pg', root, p) == TableAt(pg, root, p)
  {
    match p
    case Root =>
    case Mid(i) =>
    case Leaf(i, j) =>
      assert TableAt(pg, root, Mid(i)) == Follow(pg, root, i);
  }

  // ----- growing the tree -----------------------------------------------------------

  function Child(p: Pos, k: nat): (c: Pos)
    requires !p.Leaf?
  {
    if p.Root? then Mid(k) else Leaf(p.i, k)
  }

  function EmptyTable(): (t: Page) {
    Table(seq(FANOUT, i => 0))
  }

  /** walk with alloc: a zeroed page `n` hung under entry k of table `a`. */
  function Attach(pg: Pages, a: nat, k: nat, n: nat): (pg': Pages)
    requires IsTable(pg, a) && k < FANOUT && n != a
  {
    SetPte(pg[n := EmptyTable()], a, k, MakePte(n, 0))
  }

  lemma {:induction false} AttachAt(pg: Pages, root: nat, tabs: Tables, a: nat, k: nat, n: nat, p: Pos)
    requires TreeOk(pg, root, tabs) && a in tabs && !tabs[a].Leaf? && k < FANOUT && !IsValid(pg[a].ptes[k])
    requires n !in tabs && n != 0 && n % PGSIZE == 0 && PosOk(p) && PosOk(Child(tabs[a], k))
    ensures TableAt(Attach(pg, a, k, n), root, p) == if p == Child(tabs[a], k) then n else TableAt(pg, root, p)
  {
    var pg' := Attach(pg, a, k, n);
    MakePteOk(n, 0);
    assert forall b :: b in tabs && b != a ==> pg'[b] == pg[b];
    match p
    case Root =>
    case Mid(i) =>
      assert TableAt(pg, root, Mid(i)) == Follow(pg, root, i);
    case Leaf(i, j) =>
      assert TableAt(pg, root, Mid(i)) == Follow(pg, root, i);
      assert TableAt(pg, root, tabs[a]) == a;
  }

  lemma {:induction false} AttachTree(pg: Pages, root: nat, tabs: Tables, a: nat, k: nat, n: nat)
    requires TreeOk(pg, root, tabs) && a in tabs && !tabs[a].Leaf? && k < FANOUT && !IsValid(pg[a].ptes[k])
    requires n !in tabs && n != 0 && n % PGSIZE == 0 && PosOk(Child(tabs[a], k))
    ensures TreeOk(Attach(pg, a, k, n), root, tabs[n := Child(tabs[a], k)])
  {
    var pg' := Attach(pg, a, k, n);
    MakePteOk(n, 0);
    forall p | PosOk(p) ensures TableAt(pg', root, p) == if p == Child(tabs[a], k) then n else TableAt(pg, root, p) {
      AttachAt(pg, root, tabs, a, k, n, p);
    }
    EntryTable(pg, root, tabs, a, k);
  }

  /** A zeroed table hung into the tree changes nothing that is mapped. */
  lemma {:induction false} AttachKeeps(pg: Pages, root: nat, tabs: Tables, a: nat, k: nat, n: nat)
    requires TreeOk(pg, root, tabs) && a in tabs && !tabs[a].Leaf? && k < FANOUT && !IsValid(pg[a].ptes[k])
    requires n !in tabs && n != 0 && n % PGSIZE == 0 && PosOk(Child(tabs[a], k))
    ensures TreeOk(Attach(pg, a, k, n), root, tabs[n := Child(tabs[a], k)])
    ensures forall vpn :: 0 <= vpn < NPAGES ==> SameMapping(pg, Attach(pg, a, k, n), root, vpn)
  {
    AttachTree(pg, root, tabs, a, k, n);
    hide TreeOk, TableAt, Lookup, SameMapping;
    forall vpn | 0 <= vpn < NPAGES ensures SameMapping(pg, Attach(pg, a, k, n), root, vpn) {
      AttachLookup(pg, root, tabs, a, k, n, vpn);
    }
  }

  /** The two tables agree on whether the page is mapped, and where. */
  predicate SameMapping(pg: Pages, pg': Pages, root: nat, vpn: nat)
    requires vpn < NPAGES
  {
    && (IsValid(Lookup(pg', root, vpn)) <==> IsValid(Lookup(pg, root, vpn)))
    && (IsValid(Lookup(pg, root, vpn)) ==> Lookup(pg', root, vpn) == Lookup(pg, root, vpn))
  }

  lemma {:induction false} AttachLookup(pg: Pages, root: nat, tabs: Tables, a: nat, k: nat, n: nat, vpn: nat)
    requires TreeOk(pg, root, tabs) && a in tabs && !tabs[a].Leaf? && k < FANOUT && !IsValid(pg[a].ptes[k])
    requires n !in tabs && n != 0 && n % PGSIZE == 0 && PosOk(Child(tabs[a], k)) && vpn < NPAGES
    ensures SameMapping(pg, Attach(pg, a, k, n), root, vpn)
  {
    PxInjective(vpn, vpn);
    EntryTable(pg, root, tabs, a, k);
    AttachAt(pg, root, tabs, a, k, n, Leaf(Px2(vpn), Px1(vpn)));
  }

  // ----- bottom entries -------------------------------------------------------------

  function Vpn(p: Pos, k: nat): (vpn: nat)
    requires p.Leaf?
  {
    p.i * 0x4_0000 + p.j * FANOUT + k
  }

  lemma {:induction false} PxVpn(p: Pos, k: nat)
    requires p.Leaf? && PosOk(p) && k < FANOUT
    ensures Vpn(p, k) < NPAGES && Leaf(Px2(Vpn(p, k)), Px1(Vpn(p, k))) == p && Px0(Vpn(p, k)) == k
  {
    var v := Vpn(p, k);
    assert v / FANOUT == p.i * FANOUT + p.j;
    assert v / 0x4_0000 == v / FANOUT / FANOUT;
  }

  /** Storing a bottom entry changes the map at exactly its page number. */
  lemma {:induction false} SetLeaf(pg: Pages, root: nat, tabs: Tables, vpn: nat, pte: nat)
    requires TreeOk(pg, root, tabs) && vpn < NPAGES
    requires Px2(vpn) < HALF && TableAt(pg, root, Leaf(Px2(vpn), Px1(vpn))) != 0
    requires IsValid(pte) ==> MapsPage(Flags(pte))
    ensures IsTable(pg, TableAt(pg, root, Leaf(Px2(vpn), Px1(vpn))))
    ensures var pg' := SetPte(pg, TableAt(pg, root, Leaf(Px2(vpn), Px1(vpn))), Px0(vpn), pte);
            && TreeOk(pg', root, tabs)
            && forall v :: 0 <= v < NPAGES ==> Lookup(pg', root, v) == if v == vpn then pte else Lookup(pg, root, v)
  {
    var q := Leaf(Px2(vpn), Px1(vpn));
    var a := TableAt(pg, root, q);
    assert a in tabs && tabs[a] == q;
    var pg' := SetPte(pg, a, Px0(vpn), pte);
    forall p | PosOk(p) ensures TableAt(pg', root, p) == TableAt(pg, root, p) {
      LeafTableAt(pg, root, tabs, a, Px0(vpn), pte, p);
    }
    forall v | 0 <= v < NPAGES ensures Lookup(pg', root, v) == if v == vpn then pte else Lookup(pg, root, v) {
      PxInjective(v, vpn);
      assert TableAt(pg', root, Leaf(Px2(v), Px1(v))) == TableAt(pg, root, Leaf(Px2(v), Px1(v)));
    }
  }

  lemma {:induction false} LeafTableAt(pg: Pages, root: nat, tabs: Tables, a: nat, k: nat, pte: nat, p: Pos)
    requires TreeOk(pg, root, tabs) && a in tabs && tabs[a].Leaf? && k < FANOUT && PosOk(p)
    ensures TableAt(SetPte(pg, a, k, pte), root, p) == TableAt(pg, root, p)
  {
    var pg' := SetPte(pg, a, k, pte);
    assert TableAt(pg, root, Root) == root;
    match p
    case Root =>
    case Mid(i) =>
    case Leaf(i, j) =>
      assert TableAt(pg, root, Mid(i)) == Follow(pg, root, i);
  }

  /** The finite map from page numbers to entries that a page table stands for. */
  ghost function View(pg: Pages, root: nat): (m: map<nat, nat>) {
    map vpn | 0 <= vpn < NPAGES && IsValid(Lookup(pg, root, vpn)) :: Lookup(pg, root, vpn)
  }

  // ----- subtrees -------------------------------------------------------------------

  function Depth(p: Pos): (d: nat) {
    if p.Root? then 2 else if p.Mid? then 1 else 0
  }

  /** q is p or below it. */
  predicate Under(q: Pos, p: Pos) {
    match p
    case Root => true
    case Mid(i) => q == p || (q.Leaf? && q.i == i)
    case Leaf(_, _) => q == p
  }

  /** The entry of p's table through which q, strictly below p, is reached. */
  function Branch(q: Pos, p: Pos): (k: nat)
    requires Under(q, p) && q != p
  {
    if p.Mid? then q.j else q.i
  }

  ghost function TablesUnder(tabs: Tables, p: Pos): (s: set<nat>) {
    set x | x in tabs && Under(tabs[x], p)
  }

  /** The tables strictly below p reached through its first i entries. */
  ghost function Below(tabs: Tables, p: Pos, i: nat): (s: set<nat>) {
    set x | x in tabs && Under(tabs[x], p) && tabs[x] != p && Branch(tabs[x], p) < i
  }

  lemma {:induction false} BelowNext(tabs: Tables, p: Pos, i: nat)
    requires !p.Leaf?
    ensures Below(tabs, p, i + 1) == Below(tabs, p, i) + TablesUnder(tabs, Child(p, i))
    ensures Below(tabs, p, i) !! TablesUnder(tabs, Child(p, i))
  {
  }

  lemma {:induction false} BelowAll(pg: Pages, tabs: Tables, p: Pos, t: nat)
    requires Subtree(pg, tabs, p) && t in tabs && tabs[t] == p
    ensures Below(tabs, p, FANOUT) + {t} == TablesUnder(tabs, p) && t !in Below(tabs, p, FANOUT)
    ensures IsTable(pg, t)
  {
    forall x | x in TablesUnder(tabs, p) && x != t ensures x in Below(tabs, p, FANOUT) {
      assert tabs[x] != p && PosOk(tabs[x]);
    }
  }

  /** The subtree at p, told entry by entry, with nothing mapped below it. */
  ghost predicate Subtree(pg: Pages, tabs: Tables, p: Pos) {
    && (forall x, y :: x in tabs && y in tabs && tabs[x] == tabs[y] ==> x == y)
    && (forall x :: x in tabs && Under(tabs[x], p) ==> IsTable(pg, x) && PosOk(tabs[x]))
    && (forall x, k :: x in tabs && Under(tabs[x], p) && 0 <= k < FANOUT && IsValid(pg[x].ptes[k]) ==>
          && !tabs[x].Leaf? && Flags(pg[x].ptes[k]) == 1
          && Target(pg[x].ptes[k]) in tabs && tabs[Target(pg[x].ptes[k])] == Child(tabs[x], k))
    && (forall x, y :: x in tabs && y in tabs && Under(tabs[x], p) && Under(tabs[y], tabs[x]) && tabs[y] != tabs[x] ==>
          IsValid(pg[x].ptes[Branch(tabs[y], tabs[x])]))
  }

  /** What is below one entry is again such a subtree, and depends on its own tables only. */
  lemma {:induction false} SubtreeChild(pg: Pages, tabs: Tables, p: Pos, k: nat, pg': Pages)
    requires Subtree(pg, tabs, p) && !p.Leaf?
    requires forall x :: x in TablesUnder(tabs, Child(p, k)) ==> x in pg && x in pg' && pg'[x] == pg[x]
    ensures Subtree(pg', tabs, Child(p, k))
  {
    hide IsValid, Target, Flags;
    forall x | x in tabs && Under(tabs[x], Child(p, k))
      ensures Under(tabs[x], p) && x in TablesUnder(tabs, Child(p, k))
    {
    }
  }

  /** Nothing hangs below an invalid entry. */
  lemma {:induction false} NoChild(pg: Pages, tabs: Tables, p: Pos, t: nat, k: nat)
    requires Subtree(pg, tabs, p) && t in tabs && tabs[t] == p && k < FANOUT && !IsValid(pg[t].ptes[k])
    ensures !p.Leaf? ==> TablesUnder(tabs, Child(p, k)) == {}
  {
    hide IsValid, Target, Flags;
    if !p.Leaf? {
      assert forall x :: x in tabs && Under(tabs[x], Child(p, k)) ==>
               Under(tabs[x], tabs[t]) && Branch(tabs[x], tabs[t]) == k;
    }
  }

  /** A page table that maps nothing is such a subtree. */
  lemma {:induction false} EmptyTree(pg: Pages, root: nat, tabs: Tables)
    requires TreeOk(pg, root, tabs) && View(pg, root) == map[]
    ensures Subtree(pg, tabs, Root)
  {
    hide View;
    forall x, k | x in tabs && 0 <= k < FANOUT && IsValid(pg[x].ptes[k])
      ensures !tabs[x].Leaf? && Flags(pg[x].ptes[k]) == 1
      ensures Target(pg[x].ptes[k]) in tabs && tabs[Target(pg[x].ptes[k])] == Child(tabs[x], k)
    {
      if tabs[x].Leaf? {
        LeafMapped(pg, root, tabs, x, k);
      } else {
        EntryTable(pg, root, tabs, x, k);
      }
    }
    forall x, y | x in tabs && y in tabs && Under(tabs[y], tabs[x]) && tabs[y] != tabs[x]
      ensures IsValid(pg[x].ptes[Branch(tabs[y], tabs[x])])
    {
      BranchValid(pg, root, tabs, x, y);
    }
  }

  lemma {:induction false} LeafMapped(pg: Pages, root: nat, tabs: Tables, x: nat, k: nat)
    requires TreeOk(pg, root, tabs) && x in tabs && tabs[x].Leaf? && k < FANOUT && IsValid(pg[x].ptes[k])
    ensures PosOk(tabs[x]) && Vpn(tabs[x], k) in View(pg, root)
  {
    PxVpn(tabs[x], k);
    assert TableAt(pg, root, tabs[x]) == x;
  }

  lemma {:induction false} BranchValid(pg: Pages, root: nat, tabs: Tables, x: nat, y: nat)
    requires TreeOk(pg, root, tabs) && x in tabs && y in tabs && Under(tabs[y], tabs[x]) && tabs[y] != tabs[x]
    ensures IsTable(pg, x) && Branch(tabs[y], tabs[x]) < FANOUT && IsValid(pg[x].ptes[Branch(tabs[y], tabs[x])])
  {
    assert TableAt(pg, root, tabs[x]) == x && TableAt(pg, root, tabs[y]) == y;
  }

  lemma {:induction false} EntryTable(pg: Pages, root: nat, tabs: Tables, x: nat, k: nat)
    requires TreeOk(pg, root, tabs) && x in tabs && !tabs[x].Leaf? && k < FANOUT
    ensures IsTable(pg, x) && x != 0
    ensures PosOk(Child(tabs[x], k)) ==> TableAt(pg, root, Child(tabs[x], k)) == Follow(pg, x, k)
    ensures IsValid(pg[x].ptes[k]) ==>
              && Target(pg[x].ptes[k]) != 0 && Target(pg[x].ptes[k]) in tabs
              && tabs[Target(pg[x].ptes[k])] == Child(tabs[x], k)
  {
    assert TableAt(pg, root, tabs[x]) == x;
    assert PosOk(Child(tabs[x], k)) ==> TableAt(pg, root, Child(tabs[x], k)) == Follow(pg, x, k);
  }
}
