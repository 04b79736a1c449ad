/**
 The whole of physical memory.  Every page is on the free list, held by the kernel for
 itself (stacks, trapframes, pipes), or owned by exactly one address space; spaces come
 and go.  `Next` collects what the operations of kernel/kalloc.c and kernel/vm.c do to
 this picture, and `Machine` shows that they do no more than that.
 */
module Memory {
  import opened PageTable
  import opened Sequences
  import opened UserCopy
  import opened Vm

  /** Address spaces are named by any numbers; a name may be used again once its space is gone. */
  datatype World = World(pg: Pages, free: seq<nat>, held: set<nat>, spaces: map<nat, Space>)

  ghost predicate Owns(w: World, id: nat, x: nat) {
    id in w.spaces && x in PagesOf(w.spaces[id])
  }

  ghost predicate Somewhere(w: World, x: nat) {
    x in w.free || x in w.held || exists id :: Owns(w, id, x)
  }

  ghost predicate Partition(w: World) {
    && (forall x :: x in w.pg <==> Somewhere(w, x))
    && ToSet(w.free) !! w.held
    && (forall id :: id in w.spaces ==> SpaceOk(w.pg, w.spaces[id]) && PagesOf(w.spaces[id]) !! ToSet(w.free) + w.held)
    && (forall i, j :: i in w.spaces && j in w.spaces && i != j ==> PagesOf(w.spaces[i]) !! PagesOf(w.spaces[j]))
  }

  /** kinit: every page is free. */
  ghost predicate Booted(w: World) {
    ToSet(w.free) == w.pg.Keys && w.held == {} && w.spaces == map[]
  }

  datatype Event =
    | Change(id: nat)             // walk, mappages, uvmunmap, uvmalloc, uvmdealloc, uvmcopy or copyout on one space
    | Create(id: nat, root: nat)  // uvmcreate
    | Destroy(id: nat)            // uvmfree
    | Hold(page: nat)             // kalloc
    | Fill(page: nat)             // the kernel writes a page it holds
    | Release(page: nat)          // kfree

  ghost predicate CanChange(w: World, id: nat, w': World) {
    && id in w.spaces && id in w'.spaces && w'.held == w.held && w'.spaces == w.spaces[id := w'.spaces[id]]
    && w'.spaces[id].root == w.spaces[id].root
    && Moved(w.pg, w.free, w.spaces[id], w'.pg, w'.free, w'.spaces[id]) && SpaceOk(w'.pg, w'.spaces[id])
  }

  ghost predicate CanCreate(w: World, id: nat, root: nat, w': World) {
    && id !in w.spaces && root != 0 && root in w.pg && w.free == [root] + w'.free && root !in w'.free
    && w'.pg == w.pg[root := EmptyTable()] && w'.held == w.held
    && w'.spaces == w.spaces[id := Space(root, map[root := Root], map[])]
  }

  ghost predicate CanDestroy(w: World, id: nat, w': World) {
    && id in w.spaces && w'.held == w.held && w'.spaces == w.spaces - {id} && w'.pg.Keys == w.pg.Keys
    && ToSet(w'.free) == ToSet(w.free) + PagesOf(w.spaces[id])
    && forall x :: x in w.pg && x !in w.free && x !in PagesOf(w.spaces[id]) ==> w'.pg[x] == w.pg[x]
  }

  ghost predicate CanHold(w: World, page: nat, w': World) {
    && page in w.pg && page in w'.pg && w.free == [page] + w'.free && page !in w'.free
    && w'.pg == w.pg[page := w'.pg[page]] && w'.held == w.held + {page} && w'.spaces == w.spaces
  }

  ghost predicate CanFill(w: World, page: nat, w': World) {
    && page in w.held && page in w.pg && page in w'.pg && w'.pg == w.pg[page := w'.pg[page]]
    && w'.free == w.free && w'.held == w.held && w'.spaces == w.spaces
  }

  ghost predicate CanRelease(w: World, page: nat, w': World) {
    && page in w.held && page in w.pg && page in w'.pg && w'.pg == w.pg[page := w'.pg[page]]
    && w'.free == [page] + w.free && w'.held == w.held - {page} && w'.spaces == w.spaces
  }

  ghost predicate Next(w: World, e: Event, w': World) {
    match e
    case Change(id) => CanChange(w, id, w')
    case Create(id, root) => CanCreate(w, id, root, w')
    case Destroy(id) => CanDestroy(w, id, w')
    case Hold(page) => CanHold(w, page, w')
    case Fill(page) => CanFill(w, page, w')
    case Release(page) => CanRelease(w, page, w')
  }

  /** The event works on this space. */
  predicate Names(e: Event, id: nat) {
    (e.Change? || e.Create? || e.Destroy?) && e.id == id
  }

  /** The space maps the same pages to the same contents. */
  ghost predicate Undisturbed(w: World, id: nat, w': World) {
    && id in w.spaces && id in w'.spaces && w'.spaces[id] == w.spaces[id]
    && View(w'.pg, w.spaces[id].root) == View(w.pg, w.spaces[id].root) && Kept(w.pg, w'.pg, w.spaces[id].frames)
  }

  lemma {:induction false} BootPartition(w: World)
    requires Booted(w)
    ensures Partition(w)
  {
    forall x ensures x in w.pg <==> Somewhere(w, x) {
      assert x in ToSet(w.free) <==> x in w.pg;
    }
  }

  lemma {:induction false} PagesIn(w: World, id: nat, x: nat)
    requires Partition(w) && Owns(w, id, x)
    ensures x in w.pg && x !in w.free && x !in w.held
  {
    hide SpaceOk, PagesOf;
    assert Somewhere(w, x);
    assert x !in ToSet(w.free) + w.held;
  }

  /** A space whose pages were not touched is as it was. */
  lemma {:induction false} Bystander(w: World, id: nat, w': World)
    requires Partition(w) && id in w.spaces && id in w'.spaces && w'.spaces[id] == w.spaces[id]
    requires forall x :: x in PagesOf(w.spaces[id]) ==> x in w'.pg && x in w.pg && w'.pg[x] == w.pg[x]
    ensures SpaceOk(w'.pg, w'.spaces[id]) && Undisturbed(w, id, w')
  {
    hide View, TreeOk, Lookup;
    SpaceFrame(w.pg, w'.pg, w.spaces[id]);
  }

  // ----- each event -------------------------------------------------------------------------

  lemma {:induction false} ChangeElse(w: World, id: nat, w': World, i: nat)
    requires Partition(w) && CanChange(w, id, w') && i in w.spaces && i != id
    ensures SpaceOk(w'.pg, w'.spaces[i]) && Undisturbed(w, i, w')
    ensures PagesOf(w'.spaces[i]) !! ToSet(w'.free) + w'.held + PagesOf(w'.spaces[id])
  {
    hide View, SpaceOk, Undisturbed;
    assert w'.spaces[i] == w.spaces[i];
    forall x | x in PagesOf(w.spaces[i])
      ensures x in w.pg && x in w'.pg && w'.pg[x] == w.pg[x] && x !in ToSet(w'.free) + PagesOf(w'.spaces[id])
      ensures x !in w.held
    {
      assert Owns(w, i, x);
      PagesIn(w, i, x);
      assert x !in ToSet(w.free) + PagesOf(w.spaces[id]);
    }
    Bystander(w, i, w');
  }

  lemma {:induction false} ChangeAt(w: World, id: nat, w': World, x: nat)
    requires Partition(w) && CanChange(w, id, w')
    ensures x in w'.pg <==> Somewhere(w', x)
    ensures x in w'.held ==> x !in ToSet(w'.free) + PagesOf(w'.spaces[id])
  {
    hide SpaceOk, PagesOf;
    assert x in w.pg <==> Somewhere(w, x);
    assert x in ToSet(w'.free) + PagesOf(w'.spaces[id]) <==> x in ToSet(w.free) + PagesOf(w.spaces[id]);
    assert Owns(w', id, x) <==> x in PagesOf(w'.spaces[id]);
    assert Owns(w, id, x) <==> x in PagesOf(w.spaces[id]);
    if Somewhere(w, x) {
      if i :| Owns(w, i, x) && i != id { assert Owns(w', i, x); }
    }
    if Somewhere(w', x) {
      if i :| Owns(w', i, x) && i != id { assert Owns(w, i, x); }
    }
    if x in w.held {
      assert x !in ToSet(w.free) && x !in PagesOf(w.spaces[id]);
    }
  }

  lemma {:induction false} ChangeKeeps(w: World, id: nat, w': World)
    requires Partition(w) && CanChange(w, id, w')
    ensures Partition(w')
    ensures forall i :: i in w.spaces && i != id ==> Undisturbed(w, i, w')
  {
    hide SpaceOk, PagesOf, Somewhere, Undisturbed, View;
    forall x: nat
      ensures x in w'.pg <==> Somewhere(w', x)
      ensures x in w'.held ==> x !in ToSet(w'.free) + PagesOf(w'.spaces[id])
    {
      ChangeAt(w, id, w', x);
    }
    forall i | i in w.spaces && i != id
      ensures SpaceOk(w'.pg, w'.spaces[i]) && Undisturbed(w, i, w') && w'.spaces[i] == w.spaces[i]
      ensures PagesOf(w'.spaces[i]) !! ToSet(w'.free) + w'.held + PagesOf(w'.spaces[id])
    {
      ChangeElse(w, id, w', i);
    }
  }

  /** Only pages that no space owns were written, and the spaces are the same ones. */
  lemma {:induction false} OutsideKeeps(w: World, w': World)
    requires Partition(w) && w'.pg.Keys == w.pg.Keys && w'.spaces == w.spaces
    requires ToSet(w'.free) + w'.held == ToSet(w.free) + w.held && ToSet(w'.free) !! w'.held
    requires forall x :: x in w.pg && x !in ToSet(w.free) + w.held ==> w'.pg[x] == w.pg[x]
    ensures Partition(w')
    ensures forall i :: i in w.spaces ==> Undisturbed(w, i, w')
  {
    hide SpaceOk, PagesOf, Undisturbed;
    forall x: nat ensures x in w'.pg <==> Somewhere(w', x) {
      assert x in w.pg <==> Somewhere(w, x);
      assert x in ToSet(w.free) + w.held <==> x in ToSet(w'.free) + w'.held;
      if i :| Owns(w, i, x) { assert Owns(w', i, x); }
      if i :| Owns(w', i, x) { assert Owns(w, i, x); }
    }
    forall i | i in w.spaces ensures SpaceOk(w'.pg, w'.spaces[i]) && Undisturbed(w, i, w') {
      forall x | x in PagesOf(w.spaces[i]) ensures x in w'.pg && x in w.pg && w'.pg[x] == w.pg[x] {
        assert Owns(w, i, x);
        PagesIn(w, i, x);
      }
      Bystander(w, i, w');
    }
  }

  lemma {:induction false} HoldKeeps(w: World, page: nat, w': World)
    requires Partition(w) && CanHold(w, page, w')
    ensures Partition(w')
    ensures forall i :: i in w.spaces ==> Undisturbed(w, i, w')
  {
    hide SpaceOk, PagesOf, Undisturbed;
    assert ToSet(w.free) == {page} + ToSet(w'.free);
    OutsideKeeps(w, w');
  }

  lemma {:induction false} FillKeeps(w: World, page: nat, w': World)
    requires Partition(w) && CanFill(w, page, w')
    ensures Partition(w')
    ensures forall i :: i in w.spaces ==> Undisturbed(w, i, w')
  {
    hide SpaceOk, PagesOf, Undisturbed, Somewhere;
    OutsideKeeps(w, w');
  }

  lemma {:induction false} ReleaseKeeps(w: World, page: nat, w': World)
    requires Partition(w) && CanRelease(w, page, w')
    ensures Partition(w')
    ensures forall i :: i in w.spaces ==> Undisturbed(w, i, w')
  {
    hide SpaceOk, PagesOf, Undisturbed, Somewhere;
    assert ToSet(w'.free) == {page} + ToSet(w.free);
    OutsideKeeps(w, w');
  }

  /** A birth is a page leaving the list and becoming the root of an empty space. */
  lemma {:induction false} CreateKeeps(w: World, id: nat, root: nat, w': World)
    requires Partition(w) && CanCreate(w, id, root, w')
    ensures Partition(w') && View(w'.pg, root) == map[]
    ensures forall i :: i in w.spaces ==> Undisturbed(w, i, w')
  {
    hide View, TreeOk, Lookup, Undisturbed, EmptyTable;
    FreshTree(w'.pg, root);
    var s := Space(root, map[root := Root], map[]);
    assert PagesOf(s) == {root} && SpaceOk(w'.pg, s);
    var held := World(w'.pg, w'.free, w.held + {root}, w.spaces);
    HoldKeeps(w, root, held);
    CreateFromHeld(held, id, s, w');
    forall i | i in w.spaces ensures Undisturbed(w, i, w') {
      SameUndisturbed(w, i, held, w');
    }
  }

  lemma {:induction false} SameUndisturbed(w: World, i: nat, w1: World, w2: World)
    requires Undisturbed(w, i, w1) && w2.pg == w1.pg && i in w2.spaces && w2.spaces[i] == w1.spaces[i]
    ensures Undisturbed(w, i, w2)
  {
  }

  /** A held page that is an empty table becomes a space. */
  lemma {:induction false} CreateFromHeld(w: World, id: nat, s: Space, w': World)
    requires Partition(w) && id !in w.spaces && SpaceOk(w.pg, s) && PagesOf(s) <= w.held
    requires w' == World(w.pg, w.free, w.held - PagesOf(s), w.spaces[id := s])
    ensures Partition(w')
  {
    hide SpaceOk, PagesOf;
    forall x: nat ensures x in w'.pg <==> Somewhere(w', x) {
      assert x in w.pg <==> Somewhere(w, x);
      assert Owns(w', id, x) <==> x in PagesOf(s);
      if i :| Owns(w, i, x) { assert Owns(w', i, x); }
      if i :| Owns(w', i, x) && i != id { assert Owns(w, i, x); }
    }
  }

  /** A death returns all pages of the space. */
  lemma {:induction false} DestroyKeeps(w: World, id: nat, w': World)
    requires Partition(w) && CanDestroy(w, id, w')
    ensures Partition(w')
    ensures forall i :: i in w.spaces && i != id ==> Undisturbed(w, i, w')
  {
    hide SpaceOk, PagesOf, Undisturbed;
    forall x: nat ensures x in w'.pg <==> Somewhere(w', x) {
      assert x in w.pg <==> Somewhere(w, x);
      assert x in ToSet(w'.free) <==> x in ToSet(w.free) || x in PagesOf(w.spaces[id]);
      assert Owns(w, id, x) <==> x in PagesOf(w.spaces[id]);
      if i :| Owns(w, i, x) && i != id { assert Owns(w', i, x); }
      if i :| Owns(w', i, x) { assert Owns(w, i, x); }
    }
    forall i | i in w.spaces && i != id ensures SpaceOk(w'.pg, w'.spaces[i]) && Undisturbed(w, i, w') {
      forall x | x in PagesOf(w.spaces[i]) ensures x in w'.pg && x in w.pg && w'.pg[x] == w.pg[x] {
        assert Owns(w, i, x);
        PagesIn(w, i, x);
        assert x !in PagesOf(w.spaces[id]);
      }
      Bystander(w, i, w');
    }
  }

  // ----- every run --------------------------------------------------------------------------

  lemma {:induction false} StepKeeps(w: World, e: Event, w': World)
    requires Partition(w) && Next(w, e, w')
    ensures Partition(w')
    ensures forall i :: i in w.spaces && !Names(e, i) ==> Undisturbed(w, i, w')
  {
    hide Partition, Undisturbed, View, CanChange, CanCreate, CanDestroy, CanFill, CanHold, CanRelease;
    match e
    case Change(id) => ChangeKeeps(w, id, w');
    case Create(id, root) => CreateKeeps(w, id, root, w');
    case Destroy(id) => DestroyKeeps(w, id, w');
    case Hold(page) => HoldKeeps(w, page, w');
    case Fill(page) => FillKeeps(w, page, w');
    case Release(page) => ReleaseKeeps(w, page, w');
  }

  ghost predicate IsRun(ws: seq<World>, es: seq<Event>) {
    |ws| == |es| + 1 && forall i :: 0 <= i < |es| ==> Next(ws[i], es[i], ws[i + 1])
  }

  /** From kinit on, whatever the processes do, memory is partitioned. */
  lemma {:induction false} RunKeeps(ws: seq<World>, es: seq<Event>, n: nat)
    requires IsRun(ws, es) && Booted(ws[0]) && n < |ws|
    ensures Partition(ws[n])
  {
    hide Partition, Next, Booted;
    if n == 0 {
      BootPartition(ws[0]);
    } else {
      RunKeeps(ws, es, n - 1);
      StepKeeps(ws[n - 1], es[n - 1], ws[n]);
    }
  }

  /** Isolation: while no event works on a space, its map and the contents of its frames stay. */
  lemma {:induction false} Isolated(ws: seq<World>, es: seq<Event>, id: nat, m: nat, n: nat)
    requires IsRun(ws, es) && Booted(ws[0]) && m <= n < |ws| && id in ws[m].spaces
    requires forall k :: m <= k < n ==> !Names(es[k], id)
    ensures Undisturbed(ws[m], id, ws[n])
  {
    hide Partition, Next, Booted;
    if m == n {
      RunKeeps(ws, es, m);
      Same(ws[m], id);
    } else {
      Isolated(ws, es, id, m, n - 1);
      RunKeeps(ws, es, n - 1);
      StepKeeps(ws[n - 1], es[n - 1], ws[n]);
    }
  }

  lemma {:induction false} Same(w: World, id: nat)
    requires Partition(w) && id in w.spaces
    ensures Undisturbed(w, id, w)
  {
    hide TreeOk, Lookup, View;
  }

  /** The space maps the same page numbers to the same frames, though its tables may have grown. */
  ghost predicate SameSpace(w: World, id: nat, w': World) {
    && id in w.spaces && id in w'.spaces && w'.spaces[id].frames == w.spaces[id].frames
    && View(w'.pg, w'.spaces[id].root) == View(w.pg, w.spaces[id].root)
  }

  /** The first n page numbers of the space have the parent's flags and bytes, in frames of its own. */
  ghost predicate Inherited(w: World, parent: nat, id: nat, w': World, n: nat) {
    && parent in w.spaces && id in w.spaces && id in w'.spaces
    && var view := View(w.pg, w.spaces[parent].root);
       Added(View(w.pg, w.spaces[id].root), w.spaces[id].frames, w'.pg, w'.spaces[id], 0, n,
             FlagsIn(view), BytesIn(w.pg, view))
  }

  lemma {:induction false} SameRoot(s: Space, lo: nat, hi: nat)
    ensures Without(s, lo, hi).root == s.root
  {
  }

  lemma {:induction false} WithoutNone(s: Space, lo: nat, hi: nat)
    requires forall f :: f in s.frames ==> !(lo <= s.frames[f] < hi)
    ensures Without(s, lo, hi) == s
  {
  }

  lemma {:induction false} UserOwnedSame(pg: Pages, s: Space, pg': Pages, s': Space)
    requires UserOwned(pg, s) && View(pg', s'.root) == View(pg, s.root) && s'.frames == s.frames
    ensures UserOwned(pg', s')
  {
    hide View;
  }

  lemma {:induction false} UserOwnedLess(pg: Pages, s: Space, pg': Pages, lo: nat, hi: nat)
    requires lo <= hi && UserOwned(pg, s) && View(pg', s.root) == View(pg, s.root) - Span(lo, hi)
    ensures UserOwned(pg', Without(s, lo, hi))
  {
    hide View, Target, Flags;
  }

  lemma {:induction false} UserOwnedMore(pg: Pages, s: Space, pg': Pages, s': Space, first: nat, k: nat,
                                         pa: nat, perm: nat)
    requires UserOwned(pg, s) && !UserFlag(perm) && pa % PGSIZE == 0 && perm < 1024
    requires View(pg', s'.root) == View(pg, s.root) + Range(first, k, pa, perm) && s'.frames == s.frames
    ensures UserOwned(pg', s')
  {
    hide View, Target, Flags, UserFlag;
    forall v | v in Range(first, k, pa, perm) ensures !UserFlag(Flags(Range(first, k, pa, perm)[v])) {
      RangeFlags(first, k, pa, perm, v);
      ValidAside(perm);
    }
  }

  lemma {:induction false} ValidAside(perm: nat)
    ensures UserFlag(WithValid(perm)) == UserFlag(perm)
  {
    var q, r := perm / 16, perm % 16;
    assert perm == 16 * q + r;
    if perm % 2 == 0 {
      assert r % 2 == 0 && r < 15;
      assert (16 * q + (r + 1)) / 16 == q;
    }
  }

  lemma {:induction false} RangeFlags(first: nat, k: nat, pa: nat, perm: nat, v: nat)
    requires v in Range(first, k, pa, perm) && pa % PGSIZE == 0 && perm < 1024
    ensures Flags(Range(first, k, pa, perm)[v]) == WithValid(perm)
    decreases k
  {
    hide Flags, MakePte;
    if v == first + k - 1 {
      assert (pa + (k - 1) * PGSIZE) % PGSIZE == 0;
      MakePteOk(pa + (k - 1) * PGSIZE, perm);
      assert Range(first, k, pa, perm)[v] == MakePte(pa + (k - 1) * PGSIZE, perm);
    } else {
      RangeFlags(first, k - 1, pa, perm, v);
    }
  }

  // ----- the operations ---------------------------------------------------------------------

  /** The allocator, the pages the kernel holds and the spaces there are. */
  class Machine {
    const mem: Mem
    ghost var held: set<nat>
    ghost var spaces: map<nat, Space>

    ghost function State(): (w: World)
      reads this, mem
    {
      World(mem.pages, mem.free, held, spaces)
    }

    ghost predicate Valid()
      reads this, mem
    {
      mem.Valid() && Partition(State())
    }

    /** kinit. */
    constructor (first: nat, last: nat)
      requires 0 < first
      ensures Valid() && Booted(State()) && forall a :: a in mem.pages <==> WholePage(a, first, last)
    {
      mem := new Mem(first, last);
      held, spaces := {}, map[];
      new;
      BootPartition(State());
    }

    lemma {:induction false} HoldsSpace(id: nat)
      requires Valid() && id in spaces
      ensures mem.Holds(spaces[id])
    {
      hide SpaceOk, PagesOf, FreeList, Mem.RangeOk;
    }

    lemma {:induction false} HoldsBoth(id: nat, parent: nat)
      requires Valid() && id in spaces && parent in spaces && parent != id
      ensures mem.Holds(spaces[id]) && Aside(mem.pages, mem.free, spaces[id], spaces[parent])
    {
      hide SpaceOk, PagesOf, FreeList, Mem.RangeOk;
      assert PagesOf(spaces[id]) !! PagesOf(spaces[parent]);
    }

    lemma {:induction false} Apply(w: World, e: Event)
      requires mem.Valid() && Partition(w) && Next(w, e, State())
      ensures Valid()
    {
      hide Partition, Next, FreeList, Mem.RangeOk;
      StepKeeps(w, e, State());
    }

    /** An operation on one space is a Change, whatever else it promises. */
    ghost method Changed(w: World, id: nat, s: Space)
      requires Partition(w) && id in w.spaces && mem.Holds(s) && spaces == w.spaces && held == w.held
      requires Moved(w.pg, w.free, w.spaces[id], mem.pages, mem.free, s) && s.root == w.spaces[id].root
      modifies this`spaces
      ensures Valid() && Next(w, Change(id), State()) && spaces == w.spaces[id := s]
    {
      hide SpaceOk, Moved, Partition, FreeList, Mem.RangeOk;
      spaces := spaces[id := s];
      Apply(w, Change(id));
    }

    /** uvmcreate. */
    method Create(ghost id: nat) returns (root: nat)
      requires Valid() && id !in spaces
      modifies this`spaces, mem
      ensures Valid() && (root == 0 <==> old(mem.free) == [])
      ensures root == 0 ==> State() == old(State())
      ensures root != 0 ==> Next(old(State()), Event.Create(id, root), State()) && View(mem.pages, root) == map[]
      ensures root != 0 ==> id in spaces && spaces[id].tabs == map[root := Root] && |mem.free| == old(|mem.free|) - 1
    {
      hide Partition, FreeList, SpaceOk, View, Mem.RangeOk;
      ghost var w := State();
      ghost var s;
      root, s := mem.Uvmcreate();
      if root != 0 {
        spaces := spaces[id := s];
        assert root in PagesOf(s);
        Apply(w, Event.Create(id, root));
      }
    }

    /** uvmalloc. */
    method Grow(root: nat, oldsz: nat, newsz: nat, xperm: nat, ghost id: nat) returns (r: nat)
      requires Valid() && id in spaces && root == spaces[id].root && xperm in {0, 4, 8, 12}
      requires Up(oldsz) + |mem.free| < NPAGES - 2
      requires forall v :: Up(oldsz) <= v < NPAGES - 2 ==> v !in View(mem.pages, root)
      requires forall a :: a in spaces[id].frames ==> spaces[id].frames[a] < Up(oldsz)
      modifies this`spaces, mem
      ensures Valid() && Next(old(State()), Change(id), State()) && id in spaces && spaces[id].root == root
      ensures Kept(old(mem.pages), mem.pages, old(spaces)[id].frames)
      ensures newsz < oldsz ==> r == oldsz && State() == old(State())
      ensures newsz >= oldsz ==> r == newsz || r == 0
      ensures newsz >= oldsz && r == newsz ==>
                Added(old(View(mem.pages, root)), old(spaces)[id].frames, mem.pages, spaces[id],
                      Up(oldsz), Growth(oldsz, newsz), Perm(xperm), Zeroed())
      ensures newsz >= oldsz && r == newsz ==>
                AllUser(View(mem.pages, root), Up(oldsz) * PGSIZE, Growth(oldsz, newsz) * PGSIZE)
      ensures newsz >= oldsz && r != newsz ==> SameSpace(old(State()), id, State())
      ensures newsz >= oldsz ==>
                (r == newsz <==>
                   old(|mem.free|) >= Growth(oldsz, newsz)
                                      + Missing(old(spaces)[id].tabs, Paths(Up(oldsz), Growth(oldsz, newsz))))
      ensures old(UserOwned(mem.pages, spaces[id])) ==> UserOwned(mem.pages, spaces[id])
    {
      hide Partition, FreeList, SpaceOk, View, Moved, Next, Kept, Added, Mem.Valid, UserOwned, Missing, Paths,
           AllUser;
      ghost var w := State();
      ghost var s;
      HoldsSpace(id);
      r, s := mem.Uvmalloc(root, oldsz, newsz, xperm, spaces[id]);
      Changed(w, id, s);
      assert spaces == w.spaces[id := s];
      if newsz >= oldsz && r == newsz {
        AddedIsOpen(View(w.pg, root), w.spaces[id].frames, mem.pages, s, Up(oldsz), Growth(oldsz, newsz), xperm);
      }
      if UserOwned(w.pg, w.spaces[id]) {
        if newsz >= oldsz && r == newsz {
          AddedUserOwned(w.pg, w.spaces[id], mem.pages, s, Up(oldsz), Growth(oldsz, newsz), Perm(xperm), Zeroed());
        } else {
          UserOwnedSame(w.pg, w.spaces[id], mem.pages, s);
        }
      }
    }

    /** uvmdealloc, also when it panics. */
    method Shrink(root: nat, oldsz: nat, newsz: nat, ghost id: nat) returns (panicked: bool, r: nat)
      requires Valid() && id in spaces && root == spaces[id].root && Up(oldsz) < 0x8000_0000
      requires forall v :: Up(newsz) <= v < Up(oldsz) && v in View(mem.pages, root)
                           ==> OwnsAt(View(mem.pages, root), spaces[id].frames, v)
      modifies this`spaces, mem
      ensures Valid() && Next(old(State()), Change(id), State()) && id in spaces && spaces[id].root == root
      ensures Kept(old(mem.pages), mem.pages, spaces[id].frames)
      ensures panicked <==> newsz < oldsz && Hole(old(View(mem.pages, root)), Up(newsz), Up(oldsz))
      ensures !panicked ==> r == if newsz >= oldsz then oldsz else newsz
      ensures newsz >= oldsz ==> State() == old(State())
      ensures !panicked && newsz < oldsz ==>
                && spaces[id] == Without(old(spaces)[id], Up(newsz), Up(oldsz))
                && View(mem.pages, root) == old(View(mem.pages, root)) - Span(Up(newsz), Up(oldsz))
      ensures !panicked && old(UserOwned(mem.pages, spaces[id])) ==> UserOwned(mem.pages, spaces[id])
    {
      hide Partition, FreeList, SpaceOk, View, Moved, Next, Kept, OwnsAt, Mem.Valid, UserOwned, Hole;
      ghost var w := State();
      ghost var s;
      HoldsSpace(id);
      panicked, r, s := mem.Uvmdealloc(root, oldsz, newsz, spaces[id]);
      SameRoot(w.spaces[id], Up(newsz), Up(oldsz));
      Changed(w, id, s);
      if !panicked && UserOwned(w.pg, w.spaces[id]) && newsz < oldsz {
        UserOwnedLess(w.pg, w.spaces[id], mem.pages, Up(newsz), Up(oldsz));
      }
    }

    /** mappages, of a frame the space does not own (trampoline and trapframe). */
    method Map(root: nat, va: nat, size: nat, pa: nat, perm: nat, ghost id: nat) returns (r: int, ghost k: nat)
      requires Valid() && id in spaces && root == spaces[id].root && 0 < size && va + size <= MAXVA
      requires pa % PGSIZE == 0 && perm < 1024 && MapsPage(perm)
      requires forall v :: va / PGSIZE <= v <= (va + size - 1) / PGSIZE ==> v !in View(mem.pages, root)
      modifies this`spaces, mem
      ensures Valid() && Next(old(State()), Change(id), State()) && id in spaces && spaces[id].root == root
      ensures spaces[id].frames == old(spaces)[id].frames && Kept(old(mem.pages), mem.pages, spaces[id].frames)
      ensures View(mem.pages, root) == old(View(mem.pages, root)) + Range(va / PGSIZE, k, pa, perm)
      ensures r == 0 ==> k == (va + size - 1) / PGSIZE - va / PGSIZE + 1
      ensures r != 0 ==> r == -1 && k <= (va + size - 1) / PGSIZE - va / PGSIZE && mem.free == []
      ensures r == 0 ==> Took(old(spaces)[id].tabs, old(|mem.free|), spaces[id].tabs, |mem.free|,
                              Paths(va / PGSIZE, k), 0)
      ensures r != 0 ==> Short(old(spaces)[id].tabs, old(|mem.free|),
                               Paths(va / PGSIZE, (va + size - 1) / PGSIZE - va / PGSIZE + 1), 0)
      ensures !UserFlag(perm) && old(UserOwned(mem.pages, spaces[id])) ==> UserOwned(mem.pages, spaces[id])
    {
      hide Partition, FreeList, SpaceOk, View, Moved, Next, Kept, Range, MapsPage, Mem.Valid, UserOwned, UserFlag,
           Took, Short, Paths;
      ghost var w := State();
      ghost var s;
      HoldsSpace(id);
      r, k, s := mem.Mappages(root, va, size, pa, perm, spaces[id]);
      Changed(w, id, s);
      if !UserFlag(perm) && UserOwned(w.pg, w.spaces[id]) {
        UserOwnedMore(w.pg, w.spaces[id], mem.pages, s, va / PGSIZE, k, pa, perm);
      }
    }

    /** uvmunmap without freeing, also when it panics. */
    method Unmap(root: nat, va: nat, npages: nat, ghost id: nat) returns (panicked: bool, ghost done: nat)
      requires Valid() && id in spaces && root == spaces[id].root
      requires forall f :: f in spaces[id].frames ==> !(va / PGSIZE <= spaces[id].frames[f] < va / PGSIZE + npages)
      modifies this`spaces, mem
      ensures Valid() && Next(old(State()), Change(id), State()) && id in spaces && spaces[id].root == root
      ensures spaces[id].frames == old(spaces)[id].frames && Kept(old(mem.pages), mem.pages, spaces[id].frames)
      ensures panicked <==> va % PGSIZE != 0 || Hole(old(View(mem.pages, root)), va / PGSIZE, va / PGSIZE + npages)
      ensures done <= npages && (!panicked ==> done == npages)
      ensures View(mem.pages, root) == old(View(mem.pages, root)) - Span(va / PGSIZE, va / PGSIZE + done)
      ensures old(UserOwned(mem.pages, spaces[id])) ==> UserOwned(mem.pages, spaces[id])
    {
      hide Partition, FreeList, SpaceOk, View, Moved, Next, Kept, OwnsAt, Mem.Valid, UserOwned, Hole, Span;
      ghost var w := State();
      ghost var s;
      HoldsSpace(id);
      panicked, done, s := mem.Uvmunmap(root, va, npages, false, spaces[id]);
      SameRoot(w.spaces[id], va / PGSIZE, va / PGSIZE + done);
      WithoutNone(w.spaces[id], va / PGSIZE, va / PGSIZE + done);
      Changed(w, id, s);
      if UserOwned(w.pg, w.spaces[id]) {
        UserOwnedLess(w.pg, w.spaces[id], mem.pages, va / PGSIZE, va / PGSIZE + done);
      }
    }

    /** uvmcopy: a change of the child's space only. */
    method Copy(oldroot: nat, newroot: nat, sz: nat, ghost parent: nat, ghost id: nat) returns (r: int)
      requires Valid() && id in spaces && parent in spaces && parent != id && Up(sz) < NPAGES
      requires newroot == spaces[id].root && oldroot == spaces[parent].root && spaces[id].frames == map[]
      requires forall v :: 0 <= v < Up(sz) ==>
                 OwnsAt(View(mem.pages, oldroot), spaces[parent].frames, v) && v !in View(mem.pages, newroot)
      modifies this`spaces, mem
      ensures Valid() && Next(old(State()), Change(id), State()) && id in spaces && spaces[id].root == newroot
      ensures r == 0 ==> Inherited(old(State()), parent, id, State(), Up(sz))
      ensures r != 0 ==> r == -1 && SameSpace(old(State()), id, State())
      ensures r == 0 <==> old(|mem.free|) >= Up(sz) + Missing(old(spaces)[id].tabs, Paths(0, Up(sz)))
      ensures old(UserOwned(mem.pages, spaces[id])) ==> UserOwned(mem.pages, spaces[id])
    {
      hide Partition, FreeList, SpaceOk, View, Moved, Next, Kept, OwnsAt, Aside, Added, FlagsIn, BytesIn, Mem.Valid,
        UserOwned;
      ghost var w := State();
      ghost var s;
      HoldsBoth(id, parent);
      ghost var flags := FlagsIn(View(mem.pages, oldroot));
      ghost var bytes := BytesIn(mem.pages, View(mem.pages, oldroot));
      r, s := mem.Uvmcopy(oldroot, newroot, sz, spaces[parent], spaces[id]);
      Changed(w, id, s);
      if UserOwned(w.pg, w.spaces[id]) {
        if r == 0 {
          AddedUserOwned(w.pg, w.spaces[id], mem.pages, s, 0, Up(sz), flags, bytes);
        } else {
          UserOwnedSame(w.pg, w.spaces[id], mem.pages, s);
        }
      }
    }

    /** copyout. */
    method Write(root: nat, dstva: nat, src: seq<nat>, ghost id: nat) returns (r: int, ghost k: nat)
      requires Valid() && id in spaces && root == spaces[id].root && UserOwned(mem.pages, spaces[id])
      modifies this`spaces, mem
      ensures Valid() && Next(old(State()), Change(id), State()) && spaces == old(spaces)
      ensures UserOwned(mem.pages, spaces[id]) && View(mem.pages, root) == old(View(mem.pages, root))
      ensures k <= |src| && AllUser(View(mem.pages, root), dstva, k)
      ensures Patched(old(mem.pages), mem.pages, spaces[id], dstva, src[..k])
      ensures r == 0 ==> k == |src|
      ensures r != 0 ==> r == -1 && k < |src| && !UserAt(View(mem.pages, root), dstva + k)
    {
      hide Partition, FreeList, SpaceOk, View, Moved, Next, UserOwned, Patched, UserAt, AllUser, Mem.Valid;
      ghost var w := State();
      HoldsSpace(id);
      r, k := Copyout(mem, root, dstva, src, spaces[id]);
      PatchedMoves(w.pg, w.free, mem.pages, spaces[id], dstva, src[..k]);
      Changed(w, id, spaces[id]);
      assert w.spaces[id := w.spaces[id]] == w.spaces;
    }

    /** uvmfree. */
    method Destroy(root: nat, sz: nat, ghost id: nat)
      requires Valid() && id in spaces && root == spaces[id].root && Up(sz) <= NPAGES
      requires forall v :: 0 <= v < Up(sz) ==> OwnsAt(View(mem.pages, root), spaces[id].frames, v)
      requires forall v :: v in View(mem.pages, root) ==> v < Up(sz)
      modifies this`spaces, mem
      ensures Valid() && Next(old(State()), Event.Destroy(id), State())
    {
      hide Partition, FreeList, SpaceOk, View, OwnsAt, PagesOf, Mem.RangeOk;
      ghost var w := State();
      HoldsSpace(id);
      mem.Uvmfree(root, sz, spaces[id]);
      spaces := spaces - {id};
      Apply(w, Event.Destroy(id));
    }

    /** kalloc of a page for the kernel's own use. */
    method Hold() returns (r: nat)
      requires Valid()
      modifies this`held, mem
      ensures Valid() && (r == 0 <==> old(mem.free) == [])
      ensures if r == 0 then State() == old(State()) else Next(old(State()), Event.Hold(r), State())
    {
      hide Partition, FreeList, Mem.RangeOk;
      ghost var w := State();
      r := mem.Kalloc();
      if r != 0 {
        held := held + {r};
        Apply(w, Event.Hold(r));
      }
    }

    /** kfree of a page the kernel holds: it cannot be on the free list or in a space. */
    method Release(page: nat)
      requires Valid() && page in held
      modifies this`held, mem
      ensures Valid() && Next(old(State()), Event.Release(page), State())
    {
      hide FreeList, Mem.RangeOk, SpaceOk, PagesOf;
      ghost var w := State();
      assert Somewhere(w, page) && page !in ToSet(w.free);
      mem.Kfree(page);
      held := held - {page};
      Apply(w, Event.Release(page));
    }
  }
}
