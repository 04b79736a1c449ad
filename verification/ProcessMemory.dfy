/**
 The life of a process's memory (kernel/proc.c): proc_pagetable makes its space, growproc
 grows and shrinks it, fork copies it, proc_freepagetable ends it.  Each keeps the shape
 the next one needs, so none of the panics underneath is reachable, and no page is lost.
 */
module ProcessMemory {
  import opened Memory
  import opened PageTable
  import opened Sequences
  import opened UserCopy
  import opened Vm

  const TRAMPOLINE: nat := MAXVA - PGSIZE
  const TRAPFRAME: nat := TRAMPOLINE - PGSIZE
  const READ_EXECUTE: nat := 10   // PTE_R | PTE_X
  const READ_WRITE: nat := 6      // PTE_R | PTE_W

  /**
   User memory of sz bytes from 0 on, in frames of its own, and at the top the trampoline
   and the trapframe, which belong to the kernel and which the user cannot reach.
   */
  ghost predicate ProcView(m: map<nat, nat>, frames: map<nat, nat>, sz: nat, trampoline: nat, trapframe: nat) {
    && Up(sz) <= NPAGES - 2
    && (forall v: nat :: v in m <==> v < Up(sz) || v == NPAGES - 2 || v == NPAGES - 1)
    && m[NPAGES - 1] == MakePte(trampoline, READ_EXECUTE) && m[NPAGES - 2] == MakePte(trapframe, READ_WRITE)
    && (forall v :: 0 <= v < Up(sz) ==> OwnsAt(m, frames, v))
    && (forall a :: a in frames ==> frames[a] < Up(sz))
  }

  ghost predicate ProcSpace(w: World, id: nat, sz: nat, trampoline: nat, trapframe: nat) {
    id in w.spaces && ProcView(View(w.pg, w.spaces[id].root), w.spaces[id].frames, sz, trampoline, trapframe)
  }

  /** Physical memory is smaller than the address space. */
  ghost predicate Small(w: World) {
    |w.pg.Keys| < NPAGES - 2
  }

  /** The other spaces are as they were, and the kernel holds the same pages. */
  ghost predicate Alone(w: World, id: nat, w': World) {
    && w'.held == w.held && w'.pg.Keys == w.pg.Keys && w'.spaces - {id} == w.spaces - {id}
    && forall i :: i in w.spaces && i != id ==> Undisturbed(w, i, w')
  }

  /** No page was lost or gained by the free list and this space together. */
  ghost function PagesNow(w: World, id: nat): (r: set<nat>) {
    ToSet(w.free) + if id in w.spaces then PagesOf(w.spaces[id]) else {}
  }

  // ----- what the shape gives ---------------------------------------------------------------

  lemma {:induction false} OwnedCount(m: map<nat, nat>, frames: map<nat, nat>, n: nat)
    requires forall v :: 0 <= v < n ==> OwnsAt(m, frames, v)
    ensures n <= |frames.Keys|
  {
    hide Target;
    var f := seq(n, v requires 0 <= v < n => assert OwnsAt(m, frames, v); Target(m[v]));
    forall v | v in Upto(n) ensures v < |f| && f[v] in frames.Keys && frames[f[v]] == v {
      assert OwnsAt(m, frames, v);
    }
    UptoCount(n);
    Injective(Upto(n), f, frames.Keys);
  }

  lemma {:induction false} FreeDistinct(pg: Pages, head: nat, free: seq<nat>)
    requires FreeList(pg, head, free)
    ensures Distinct(free)
    decreases |free|
  {
    if free != [] {
      FreeDistinct(pg, pg[head].next, free[1..]);
      assert free == [free[0]] + free[1..];
    }
  }

  /** A process's frames and the free pages are different pages. */
  lemma {:induction false} RoomAbove(m: Machine, id: nat, n: nat)
    requires m.Valid() && Small(m.State()) && id in m.spaces
    requires forall v :: 0 <= v < n ==> OwnsAt(View(m.mem.pages, m.spaces[id].root), m.spaces[id].frames, v)
    ensures n + |m.mem.free| < NPAGES - 2
  {
    hide SpaceOk, View, OwnsAt, Mem.RangeOk;
    var w, frames := m.State(), m.spaces[id].frames;
    OwnedCount(View(w.pg, m.spaces[id].root), frames, n);
    FreeDistinct(w.pg, m.mem.freelist, w.free);
    DistinctCount(w.free);
    forall x | x in frames.Keys + ToSet(w.free) ensures x in w.pg.Keys {
      if x in frames {
        assert Owns(w, id, x);
      }
      assert Somewhere(w, x);
    }
    SubsetCount(frames.Keys + ToSet(w.free), w.pg.Keys);
    assert frames.Keys !! ToSet(w.free);
  }

  /** Every user page is one of the process's frames: what copyout and copyin ask for. */
  lemma {:induction false} ProcUserOwned(pg: Pages, s: Space, sz: nat, trampoline: nat, trapframe: nat)
    requires ProcView(View(pg, s.root), s.frames, sz, trampoline, trapframe)
    requires trampoline % PGSIZE == trapframe % PGSIZE == 0
    ensures UserOwned(pg, s)
  {
    hide View, OwnsAt, MakePte, Target, Flags;
    MakePteOk(trampoline, READ_EXECUTE);
    MakePteOk(trapframe, READ_WRITE);
  }

  // ----- one step keeps the rest --------------------------------------------------------------

  lemma {:induction false} ChangePages(w: World, id: nat, w': World)
    requires CanChange(w, id, w')
    ensures PagesNow(w', id) == PagesNow(w, id) && w'.pg.Keys == w.pg.Keys && w'.spaces - {id} == w.spaces - {id}
  {
    hide SpaceOk;
  }

  lemma {:induction false} CreatePages(w: World, id: nat, root: nat, w': World)
    requires CanCreate(w, id, root, w')
    ensures PagesNow(w', id) == PagesNow(w, id) && w'.pg.Keys == w.pg.Keys && w'.spaces - {id} == w.spaces - {id}
  {
    assert ToSet(w.free) == {root} + ToSet(w'.free);
    assert PagesOf(w'.spaces[id]) == {root};
  }

  lemma {:induction false} DestroyPages(w: World, id: nat, w': World)
    requires CanDestroy(w, id, w')
    ensures PagesNow(w', id) == PagesNow(w, id) && w'.pg.Keys == w.pg.Keys && w'.spaces - {id} == w.spaces - {id}
  {
  }

  lemma {:induction false} SamePages(w: World, e: Event, id: nat, w': World)
    requires Next(w, e, w') && Names(e, id)
    ensures w'.held == w.held && w'.pg.Keys == w.pg.Keys && w'.spaces - {id} == w.spaces - {id}
    ensures PagesNow(w', id) == PagesNow(w, id)
  {
    hide PagesNow, SpaceOk, Moved, PagesOf;
    match e
    case Change(_) => ChangePages(w, id, w');
    case Create(_, root) => CreatePages(w, id, root, w');
    case Destroy(_) => DestroyPages(w, id, w');
  }

  lemma {:induction false} AloneStep(w: World, e: Event, id: nat, w': World)
    requires Partition(w) && Next(w, e, w') && Names(e, id)
    ensures Alone(w, id, w') && PagesNow(w', id) == PagesNow(w, id)
  {
    hide Partition, Undisturbed, PagesNow, Next;
    StepKeeps(w, e, w');
    SamePages(w, e, id, w');
    assert forall i :: Names(e, i) ==> i == id;
  }

  lemma {:induction false} AloneTwice(w: World, id: nat, w1: World, w2: World)
    requires Alone(w, id, w1) && Alone(w1, id, w2)
    ensures Alone(w, id, w2)
  {
    hide View;
    forall i | i in w.spaces && i != id ensures Undisturbed(w, i, w2) {
      assert i in w.spaces - {id};
      assert i in w1.spaces - {id};
    }
  }

  lemma {:induction false} AloneSame(w: World, id: nat)
    requires Partition(w)
    ensures Alone(w, id, w)
  {
    hide View, SpaceOk;
    forall i | i in w.spaces && i != id ensures Undisturbed(w, i, w) {
      Same(w, i);
    }
  }

  // ----- making and ending a space ------------------------------------------------------------

  /** The map of a new process, built up. */
  lemma {:induction false} TopPages(trampoline: nat, trapframe: nat)
    ensures var m := map[NPAGES - 1 := MakePte(trampoline, READ_EXECUTE)][NPAGES - 2 := MakePte(trapframe, READ_WRITE)];
            ProcView(m, map[], 0, trampoline, trapframe)
  {
  }

  lemma {:induction false} OnePageOff(pte: nat)
    ensures var m := map[NPAGES - 1 := pte];
            !Hole(m, NPAGES - 1, NPAGES - 1 + 1) && m - Span(NPAGES - 1, NPAGES - 1 + 1) == map[]
  {
  }

  /** The tables of a new process: the root and the two on the way to the trampoline. */
  ghost function Tops(): (r: set<Pos>) {
    {Root, PosAt(NPAGES - 1, 1), PosAt(NPAGES - 1, 0)}
  }

  lemma {:induction false} TopPaths()
    ensures Paths(NPAGES - 1, 1) == Paths(NPAGES - 2, 1) == {PosAt(NPAGES - 1, 1), PosAt(NPAGES - 1, 0)}
  {
    var p, q := PosAt(NPAGES - 1, 1), PosAt(NPAGES - 1, 0);
    assert p == PosAt(NPAGES - 2, 1) && q == PosAt(NPAGES - 2, 0);
    OnePath(NPAGES - 1);
    OnePath(NPAGES - 2);
    StepsDown(NPAGES - 1, 2);
    StepsDown(NPAGES - 1, 1);
    StepsDown(NPAGES - 2, 2);
    StepsDown(NPAGES - 2, 1);
  }

  /** The first mapping makes two tables, the second none. */
  lemma {:induction false} TopsTook(root: nat, free: nat, tabs: Tables, free': nat)
    ensures Took(map[root := Root], free, tabs, free', Paths(NPAGES - 1, 1), 0) ==>
              Placed(tabs) == Tops() && free == free' + 2
    ensures Short(map[root := Root], free, Paths(NPAGES - 1, 1), 0) ==> free < 2
  {
    TopPaths();
    var t := map[root := Root];
    assert root in t && t[root] == Root;
    assert Placed(t) == {Root};
    assert Paths(NPAGES - 1, 1) - {Root} == {PosAt(NPAGES - 1, 1), PosAt(NPAGES - 1, 0)};
  }

  lemma {:induction false} TopsThere(tabs: Tables, free: nat, tabs': Tables, free': nat)
    requires Placed(tabs) == Tops()
    ensures Took(tabs, free, tabs', free', Paths(NPAGES - 2, 1), 0) ==> Placed(tabs') == Tops() && free == free'
    ensures !Short(tabs, free, Paths(NPAGES - 2, 1), 0)
  {
    TopPaths();
    assert Paths(NPAGES - 2, 1) - Tops() == {};
  }

  lemma {:induction false} TopsFail(root: nat, free: nat, tabs: Tables, free': nat)
    requires Took(map[root := Root], free, tabs, free', Paths(NPAGES - 1, 1), 0)
    ensures Short(tabs, free', Paths(NPAGES - 2, 1), 0) ==> free < 2
  {
    TopsTook(root, free, tabs, free');
    TopsThere(tabs, free', tabs, free');
  }

  lemma {:induction false} TopsDone(root: nat, free: nat, tabs: Tables, free1: nat, tabs2: Tables, free2: nat)
    requires Took(map[root := Root], free, tabs, free1, Paths(NPAGES - 1, 1), 0)
    requires Took(tabs, free1, tabs2, free2, Paths(NPAGES - 2, 1), 0)
    ensures Placed(tabs2) == Tops() && free == free2 + 2
  {
    TopsTook(root, free, tabs, free1);
    TopsThere(tabs, free1, tabs2, free2);
  }

  /** proc_pagetable: trampoline and trapframe and nothing else, or everything as before. */
  method ProcPagetable(m: Machine, trampoline: nat, trapframe: nat, ghost id: nat) returns (root: nat)
    requires m.Valid() && id !in m.spaces && trampoline % PGSIZE == trapframe % PGSIZE == 0
    modifies m`spaces, m.mem
    ensures m.Valid() && Alone(old(m.State()), id, m.State())
    ensures PagesNow(m.State(), id) == PagesNow(old(m.State()), id)
    ensures root == 0 ==> m.spaces == old(m.spaces)
    ensures root != 0 ==>
              && ProcSpace(m.State(), id, 0, trampoline, trapframe)
              && m.spaces[id].root == root && m.spaces[id].frames == map[]
    ensures root != 0 <==> old(|m.mem.free|) >= 3
    ensures root != 0 ==> Placed(m.spaces[id].tabs) == Tops() && |m.mem.free| == old(|m.mem.free|) - 3
  {
    hide Partition, Next, View, Mem.Valid, Alone, PagesNow, ProcView, MakePte, Undisturbed, UserOwned, Kept, Hole,
         Span, Took, Short, Placed, Paths, Tops;
    ghost var w0 := m.State();
    AloneSame(w0, id);
    root := m.Create(id);
    if root == 0 {
      return;
    }
    ghost var w1 := m.State();
    AloneStep(w0, Event.Create(id, root), id, w1);
    NewSpace(w0, id, root, w1);
    ghost var free1 := |m.mem.free|;
    var r;
    ghost var k;
    r, k := m.Map(root, TRAMPOLINE, PGSIZE, trampoline, READ_EXECUTE, id);
    ghost var w2 := m.State();
    AloneStep(w1, Change(id), id, w2);
    AloneTwice(w0, id, w1, w2);
    OneRange(map[], NPAGES - 1, trampoline, READ_EXECUTE);
    ghost var tabs, free2 := m.spaces[id].tabs, |m.mem.free|;
    if r < 0 {
      TopsTook(root, free1, tabs, free2);
      Discard(m, root, id, w0);
      return 0;
    }
    var done := MapTrapframe(m, root, trampoline, trapframe, id, w0);
    if !done {
      TopsFail(root, free1, tabs, free2);
      return 0;
    }
    TopsDone(root, free1, tabs, free2, m.spaces[id].tabs, |m.mem.free|);
  }

  /** The second half of proc_pagetable. */
  method MapTrapframe(m: Machine, root: nat, trampoline: nat, trapframe: nat, ghost id: nat,
                      ghost w0: World) returns (done: bool)
    requires m.Valid() && id in m.spaces && root == m.spaces[id].root && m.spaces[id].frames == map[]
    requires View(m.mem.pages, root) == map[NPAGES - 1 := MakePte(trampoline, READ_EXECUTE)]
    requires Alone(w0, id, m.State()) && PagesNow(m.State(), id) == PagesNow(w0, id) && id !in w0.spaces
    requires trapframe % PGSIZE == 0
    modifies m`spaces, m.mem
    ensures m.Valid() && Alone(w0, id, m.State()) && PagesNow(m.State(), id) == PagesNow(w0, id)
    ensures !done ==>
              m.spaces == w0.spaces && Short(old(m.spaces)[id].tabs, old(|m.mem.free|), Paths(NPAGES - 2, 1), 0)
    ensures done ==>
              && ProcSpace(m.State(), id, 0, trampoline, trapframe)
              && m.spaces[id].root == root && m.spaces[id].frames == map[]
              && Took(old(m.spaces)[id].tabs, old(|m.mem.free|), m.spaces[id].tabs, |m.mem.free|,
                      Paths(NPAGES - 2, 1), 0)
  {
    hide Partition, Next, View, Mem.Valid, Alone, PagesNow, ProcView, MakePte, Undisturbed, UserOwned, Kept, Hole,
         Span, Took, Short, Paths;
    ghost var w := m.State();
    var r;
    ghost var k;
    r, k := m.Map(root, TRAPFRAME, PGSIZE, trapframe, READ_WRITE, id);
    AloneStep(w, Change(id), id, m.State());
    AloneTwice(w0, id, w, m.State());
    OneRange(map[NPAGES - 1 := MakePte(trampoline, READ_EXECUTE)], NPAGES - 2, trapframe, READ_WRITE);
    if r < 0 {
      Unwind(m, root, trampoline, id, w0);
      return false;
    }
    TopPages(trampoline, trapframe);
    done := true;
  }

  lemma {:induction false} NewSpace(w: World, id: nat, root: nat, w': World)
    requires Next(w, Event.Create(id, root), w')
    ensures id in w'.spaces && w'.spaces[id].root == root && w'.spaces[id].frames == map[]
  {
  }

  /** uvmfree(pagetable, 0) of a space that maps nothing, on the way out. */
  method Discard(m: Machine, root: nat, ghost id: nat, ghost w0: World)
    requires m.Valid() && id in m.spaces && root == m.spaces[id].root && View(m.mem.pages, root) == map[]
    requires Alone(w0, id, m.State()) && PagesNow(m.State(), id) == PagesNow(w0, id) && id !in w0.spaces
    modifies m`spaces, m.mem
    ensures m.Valid() && Alone(w0, id, m.State()) && PagesNow(m.State(), id) == PagesNow(w0, id)
    ensures m.spaces == w0.spaces
  {
    hide Partition, Next, View, Mem.Valid, PagesNow, Undisturbed;
    ghost var w := m.State();
    m.Destroy(root, 0, id);
    AloneStep(w, Event.Destroy(id), id, m.State());
    AloneTwice(w0, id, w, m.State());
    GoneAgain(w, id, m.State(), w0);
  }

  /** proc_pagetable's way out when the trapframe cannot be mapped. */
  method Unwind(m: Machine, root: nat, ghost trampoline: nat, ghost id: nat, ghost w0: World)
    requires m.Valid() && id in m.spaces && root == m.spaces[id].root && m.spaces[id].frames == map[]
    requires View(m.mem.pages, root) == map[NPAGES - 1 := MakePte(trampoline, READ_EXECUTE)]
    requires Alone(w0, id, m.State()) && PagesNow(m.State(), id) == PagesNow(w0, id) && id !in w0.spaces
    modifies m`spaces, m.mem
    ensures m.Valid() && Alone(w0, id, m.State()) && PagesNow(m.State(), id) == PagesNow(w0, id)
    ensures m.spaces == w0.spaces
  {
    hide Partition, Next, View, Mem.Valid, Alone, PagesNow, MakePte, Undisturbed, UserOwned, Kept, Hole, Span;
    ghost var w := m.State();
    OnePageOff(MakePte(trampoline, READ_EXECUTE));
    var panicked;
    ghost var done;
    panicked, done := m.Unmap(root, TRAMPOLINE, 1, id);
    AloneStep(w, Change(id), id, m.State());
    AloneTwice(w0, id, w, m.State());
    Discard(m, root, id, w0);
  }

  lemma {:induction false} GoneAgain(w: World, id: nat, w': World, w0: World)
    requires Next(w, Event.Destroy(id), w') && Alone(w0, id, w) && id !in w0.spaces
    ensures w'.spaces == w0.spaces
  {
    hide Undisturbed;
    assert w0.spaces - {id} == w0.spaces;
  }

  /** The steps on the way to freeing a process's memory: only the user pages are left. */
  lemma {:induction false} BottomPages(m: map<nat, nat>, frames: map<nat, nat>, sz: nat, trampoline: nat,
                                       trapframe: nat)
    requires ProcView(m, frames, sz, trampoline, trapframe)
    ensures !Hole(m, NPAGES - 1, NPAGES) && !Hole(m - Span(NPAGES - 1, NPAGES), NPAGES - 2, NPAGES - 1)
    ensures var u := m - Span(NPAGES - 1, NPAGES) - Span(NPAGES - 2, NPAGES - 1);
            && (forall v :: 0 <= v < Up(sz) ==> OwnsAt(u, frames, v))
            && (forall v :: v in u ==> v < Up(sz))
    ensures forall a :: a in frames ==> frames[a] < NPAGES - 2
  {
    hide MakePte, Target;
    assert NPAGES - 1 in m && NPAGES - 2 in m - Span(NPAGES - 1, NPAGES);
    var u := m - Span(NPAGES - 1, NPAGES) - Span(NPAGES - 2, NPAGES - 1);
    forall v | 0 <= v < Up(sz) ensures OwnsAt(u, frames, v) {
      assert OwnsAt(m, frames, v);
    }
  }

  /** proc_freepagetable: none of its panics is reachable and every page of the process is free again. */
  method ProcFreepagetable(m: Machine, root: nat, sz: nat, ghost id: nat, ghost trampoline: nat, ghost trapframe: nat)
    requires m.Valid() && ProcSpace(m.State(), id, sz, trampoline, trapframe) && root == m.spaces[id].root
    modifies m`spaces, m.mem
    ensures m.Valid() && Alone(old(m.State()), id, m.State()) && m.spaces == old(m.spaces) - {id}
    ensures ToSet(m.mem.free) == old(ToSet(m.mem.free) + PagesOf(m.spaces[id]))
  {
    hide Partition, Next, View, Mem.Valid, Alone, PagesNow, MakePte, Undisturbed, UserOwned, OwnsAt, Hole, Span,
         ToSet, PagesOf;
    ghost var w0 := m.State();
    BottomPages(View(w0.pg, root), w0.spaces[id].frames, sz, trampoline, trapframe);
    var panicked;
    ghost var done;
    panicked, done := m.Unmap(root, TRAMPOLINE, 1, id);
    ghost var w1 := m.State();
    AloneStep(w0, Change(id), id, w1);
    panicked, done := m.Unmap(root, TRAPFRAME, 1, id);
    ghost var w2 := m.State();
    AloneStep(w1, Change(id), id, w2);
    AloneTwice(w0, id, w1, w2);
    m.Destroy(root, sz, id);
    AloneStep(w2, Event.Destroy(id), id, m.State());
    AloneTwice(w0, id, w2, m.State());
    Ended(w0, id, w2, m.State());
  }

  lemma {:induction false} Ended(w0: World, id: nat, w: World, w': World)
    requires Next(w, Event.Destroy(id), w') && Alone(w0, id, w') && id in w0.spaces
    requires PagesNow(w', id) == PagesNow(w0, id)
    ensures w'.spaces == w0.spaces - {id} && ToSet(w'.free) == ToSet(w0.free) + PagesOf(w0.spaces[id])
  {
    hide Undisturbed;
    assert w'.spaces - {id} == w'.spaces;
  }

  // ----- growing, shrinking and copying -------------------------------------------------------

  lemma {:induction false} AddedProc(view: map<nat, nat>, frames: map<nat, nat>, pg: Pages, s: Space,
                                     oldsz: nat, newsz: nat, perm: nat -> nat, content: nat -> seq<nat>,
                                     trampoline: nat, trapframe: nat)
    requires ProcView(view, frames, oldsz, trampoline, trapframe) && oldsz <= newsz && Up(newsz) <= NPAGES - 2
    requires Added(view, frames, pg, s, Up(oldsz), Growth(oldsz, newsz), perm, content)
    ensures ProcView(View(pg, s.root), s.frames, newsz, trampoline, trapframe)
  {
    hide View, PlacedAt, MakePte, Target;
    assert Up(oldsz) + Growth(oldsz, newsz) == Up(newsz);
    AddedOwns(view, frames, pg, s, Up(oldsz), Growth(oldsz, newsz), perm, content);
    forall v | 0 <= v < Up(newsz) ensures OwnsAt(View(pg, s.root), s.frames, v) {
      assert v < Up(oldsz) ==> OwnsAt(view, frames, v);
    }
  }

  /** uvmalloc cannot have added more than there is room for below the trapframe. */
  lemma {:induction false} AddedFits(m: Machine, id: nat, view: map<nat, nat>, frames: map<nat, nat>,
                                     oldsz: nat, newsz: nat, perm: nat -> nat, content: nat -> seq<nat>,
                                     trampoline: nat, trapframe: nat)
    requires m.Valid() && Small(m.State()) && id in m.spaces && oldsz <= newsz
    requires ProcView(view, frames, oldsz, trampoline, trapframe)
    requires Added(view, frames, m.mem.pages, m.spaces[id], Up(oldsz), Growth(oldsz, newsz), perm, content)
    ensures Up(newsz) <= NPAGES - 2
  {
    hide View, PlacedAt, MakePte, Target, Partition, Mem.Valid, Small;
    var s := m.spaces[id];
    AddedOwns(view, frames, m.mem.pages, s, Up(oldsz), Growth(oldsz, newsz), perm, content);
    forall v | 0 <= v < Up(newsz) ensures OwnsAt(View(m.mem.pages, s.root), s.frames, v) {
      assert v < Up(oldsz) ==> OwnsAt(view, frames, v);
    }
    RoomAbove(m, id, Up(newsz));
  }

  lemma {:induction false} WithoutProc(view: map<nat, nat>, s: Space, oldsz: nat, newsz: nat, trampoline: nat,
                                       trapframe: nat)
    requires ProcView(view, s.frames, oldsz, trampoline, trapframe) && newsz <= oldsz
    ensures Up(newsz) <= Up(oldsz) && !Hole(view, Up(newsz), Up(oldsz))
    ensures ProcView(view - Span(Up(newsz), Up(oldsz)), Without(s, Up(newsz), Up(oldsz)).frames, newsz,
                     trampoline, trapframe)
  {
    hide MakePte, Target;
    var u, f := view - Span(Up(newsz), Up(oldsz)), Without(s, Up(newsz), Up(oldsz)).frames;
    forall v | 0 <= v < Up(newsz) ensures OwnsAt(u, f, v) {
      assert OwnsAt(view, s.frames, v);
    }
  }

  /** The shape gives what uvmalloc asks of its caller. */
  lemma {:induction false} ProcRoom(m: Machine, id: nat, sz: nat, trampoline: nat, trapframe: nat)
    requires m.Valid() && Small(m.State()) && ProcSpace(m.State(), id, sz, trampoline, trapframe)
    ensures Up(sz) + |m.mem.free| < NPAGES - 2 && Up(sz) < 0x8000_0000
    ensures forall v :: Up(sz) <= v < NPAGES - 2 ==> v !in View(m.mem.pages, m.spaces[id].root)
    ensures forall a :: a in m.spaces[id].frames ==> m.spaces[id].frames[a] < Up(sz)
    ensures forall v :: 0 <= v < Up(sz) ==> OwnsAt(View(m.mem.pages, m.spaces[id].root), m.spaces[id].frames, v)
  {
    hide View, OwnsAt, MakePte, Partition, Mem.Valid, Small;
    RoomAbove(m, id, Up(sz));
  }

  /** Below page number n the space maps the same frames with the same contents. */
  ghost predicate Stays(w: World, id: nat, w': World, n: nat) {
    && id in w.spaces && id in w'.spaces
    && var view, view' := View(w.pg, w.spaces[id].root), View(w'.pg, w'.spaces[id].root);
       forall v :: 0 <= v < n ==> PageStays(w.pg, view, w'.pg, view', v)
  }

  ghost predicate PageStays(pg: Pages, view: map<nat, nat>, pg': Pages, view': map<nat, nat>, v: nat) {
    && v in view && v in view' && view'[v] == view[v]
    && Target(view[v]) in pg && Target(view[v]) in pg' && pg'[Target(view[v])] == pg[Target(view[v])]
  }

  /** The pages from lo up to hi hold zeros, and the user may read and write them. */
  ghost predicate ZeroFrom(w: World, id: nat, lo: nat, hi: nat) {
    && id in w.spaces
    && forall v :: lo <= v < hi ==> ZeroAt(w.pg, View(w.pg, w.spaces[id].root), v)
  }

  ghost predicate ZeroAt(pg: Pages, view: map<nat, nat>, v: nat) {
    && v in view && Target(view[v]) in pg && pg[Target(view[v])] == Data(ZeroPage())
    && Flags(view[v]) == 23   // PTE_V | PTE_R | PTE_W | PTE_U
  }

  lemma {:induction false} OwnFrames(m: Machine, id: nat)
    requires m.Valid() && id in m.spaces
    ensures Kept(m.mem.pages, m.mem.pages, m.spaces[id].frames)
  {
    hide TreeOk, View, Mem.Valid;
    assert SpaceOk(m.mem.pages, m.spaces[id]);
  }

  lemma {:induction false} SameStays(w: World, id: nat, w': World, sz: nat, trampoline: nat, trapframe: nat)
    requires ProcSpace(w, id, sz, trampoline, trapframe) && SameSpace(w, id, w')
    requires Kept(w.pg, w'.pg, w.spaces[id].frames)
    ensures Stays(w, id, w', Up(sz)) && ZeroFrom(w', id, Up(sz), Up(sz))
  {
    hide View, Target, MakePte;
    forall v | 0 <= v < Up(sz)
      ensures PageStays(w.pg, View(w.pg, w.spaces[id].root), w'.pg, View(w'.pg, w'.spaces[id].root), v)
    {
      assert OwnsAt(View(w.pg, w.spaces[id].root), w.spaces[id].frames, v);
    }
  }

  lemma {:induction false} GrownStays(w: World, id: nat, w': World, sz: nat, k: nat, trampoline: nat,
                                      trapframe: nat)
    requires ProcSpace(w, id, sz, trampoline, trapframe) && id in w'.spaces
    requires Added(View(w.pg, w.spaces[id].root), w.spaces[id].frames, w'.pg, w'.spaces[id], Up(sz), k, Perm(4),
                   Zeroed())
    requires Kept(w.pg, w'.pg, w.spaces[id].frames)
    ensures Stays(w, id, w', Up(sz)) && ZeroFrom(w', id, Up(sz), Up(sz) + k)
  {
    hide View, Target, MakePte, Flags;
    AddedIsOpen(View(w.pg, w.spaces[id].root), w.spaces[id].frames, w'.pg, w'.spaces[id], Up(sz), k, 4);
    forall v | 0 <= v < Up(sz)
      ensures PageStays(w.pg, View(w.pg, w.spaces[id].root), w'.pg, View(w'.pg, w'.spaces[id].root), v)
    {
      assert OwnsAt(View(w.pg, w.spaces[id].root), w.spaces[id].frames, v);
    }
    var view' := View(w'.pg, w'.spaces[id].root);
    forall v | Up(sz) <= v < Up(sz) + k ensures ZeroAt(w'.pg, view', v) {
      assert PlacedAt(w'.pg, view', w'.spaces[id].frames, v, Perm(4)(v), Zeroed()(v));
    }
  }

  lemma {:induction false} ShrunkStays(w: World, id: nat, w': World, sz: nat, newsz: nat, trampoline: nat,
                                       trapframe: nat)
    requires ProcSpace(w, id, sz, trampoline, trapframe) && id in w'.spaces && newsz <= sz
    requires Up(newsz) <= Up(sz) && w'.spaces[id] == Without(w.spaces[id], Up(newsz), Up(sz))
    requires View(w'.pg, w.spaces[id].root) == View(w.pg, w.spaces[id].root) - Span(Up(newsz), Up(sz))
    requires Kept(w.pg, w'.pg, w'.spaces[id].frames)
    ensures Stays(w, id, w', Up(newsz)) && ZeroFrom(w', id, Up(sz), Up(newsz))
  {
    hide View, Target, MakePte, Span;
    forall v | 0 <= v < Up(newsz)
      ensures PageStays(w.pg, View(w.pg, w.spaces[id].root), w'.pg, View(w'.pg, w'.spaces[id].root), v)
    {
      assert OwnsAt(View(w.pg, w.spaces[id].root), w.spaces[id].frames, v);
    }
  }

  /**
   growproc: the process has the new size, or the old one and -1.  What it keeps stays as it
   was, what it gains is zero.  A shrink by more than there is wraps around and changes nothing.
   */
  method Growproc(m: Machine, root: nat, sz: nat, n: int, ghost id: nat, ghost trampoline: nat, ghost trapframe: nat)
    returns (r: int, newsz: nat)
    requires m.Valid() && Small(m.State()) && ProcSpace(m.State(), id, sz, trampoline, trapframe)
    requires root == m.spaces[id].root && -0x8000_0000 <= n < 0x8000_0000
    modifies m`spaces, m.mem
    ensures m.Valid() && Alone(old(m.State()), id, m.State())
    ensures PagesNow(m.State(), id) == PagesNow(old(m.State()), id)
    ensures ProcSpace(m.State(), id, newsz, trampoline, trapframe) && m.spaces[id].root == root
    ensures (r == 0 && newsz == if sz + n < 0 then sz else sz + n) || (r == -1 && n > 0 && newsz == sz)
    ensures n > 0 ==>
              (r == 0 <==>
                 old(|m.mem.free|) >= Growth(sz, sz + n)
                                      + Missing(old(m.spaces)[id].tabs, Paths(Up(sz), Growth(sz, sz + n))))
    ensures Stays(old(m.State()), id, m.State(), Up(if newsz < sz then newsz else sz))
    ensures ZeroFrom(m.State(), id, Up(sz), Up(newsz))
  {
    hide Partition, Next, View, Mem.Valid, Alone, PagesNow, ProcView, Undisturbed, UserOwned, Added, Small, OwnsAt,
         Without, Span, Stays, ZeroFrom, Kept, Hole, Zeroed, Perm,
         Missing, Paths;
    ghost var w := m.State();
    ghost var view, s := View(w.pg, root), w.spaces[id];
    AloneSame(w, id);
    ProcRoom(m, id, sz, trampoline, trapframe);
    newsz, r := sz, 0;
    if n > 0 {
      var got := m.Grow(root, sz, sz + n, 4, id);
      AloneStep(w, Change(id), id, m.State());
      SmallKept(w, id, m.State());
      if got == 0 {
        SameStays(w, id, m.State(), sz, trampoline, trapframe);
        return -1, sz;
      }
      AddedFits(m, id, view, s.frames, sz, sz + n, Perm(4), Zeroed(), trampoline, trapframe);
      AddedProc(view, s.frames, m.mem.pages, m.spaces[id], sz, sz + n, Perm(4), Zeroed(), trampoline, trapframe);
      GrownStays(w, id, m.State(), sz, Growth(sz, sz + n), trampoline, trapframe);
      newsz := got;
    } else if n < 0 {
      var want := if sz + n < 0 then 0x1_0000_0000_0000_0000 + sz + n else sz + n;
      var panicked;
      if want < sz {
        WithoutProc(view, s, sz, want, trampoline, trapframe);
      }
      panicked, newsz := m.Shrink(root, sz, want, id);
      AloneStep(w, Change(id), id, m.State());
      if want < sz {
        ShrunkStays(w, id, m.State(), sz, want, trampoline, trapframe);
      } else {
        SameStays(w, id, m.State(), sz, trampoline, trapframe);
      }
    } else {
      OwnFrames(m, id);
      SameStays(w, id, w, sz, trampoline, trapframe);
    }
  }

  lemma {:induction false} SmallKept(w: World, id: nat, w': World)
    requires Small(w) && Alone(w, id, w')
    ensures Small(w')
  {
  }

  /** At each of the first n page numbers the two spaces have the same flags and the same bytes. */
  ghost predicate Twins(w: World, parent: nat, id: nat, n: nat) {
    && parent in w.spaces && id in w.spaces
    && var mine, theirs := View(w.pg, w.spaces[id].root), View(w.pg, w.spaces[parent].root);
       forall v :: 0 <= v < n ==> SamePage(w.pg, mine, theirs, v)
  }

  ghost predicate SamePage(pg: Pages, mine: map<nat, nat>, theirs: map<nat, nat>, v: nat) {
    && v in mine && v in theirs && mine[v] == MakePte(Target(mine[v]), Flags(theirs[v]))
    && Target(mine[v]) in pg && Target(theirs[v]) in pg && pg[Target(mine[v])] == pg[Target(theirs[v])]
  }

  lemma {:induction false} InheritedTwins(w: World, parent: nat, id: nat, w': World, n: nat)
    requires Partition(w) && Inherited(w, parent, id, w', n) && Undisturbed(w, parent, w')
    requires forall v :: 0 <= v < n ==> OwnsAt(View(w.pg, w.spaces[parent].root), w.spaces[parent].frames, v)
    ensures Twins(w', parent, id, n)
  {
    hide View, MakePte, Target, Flags, TreeOk, Lookup;
    var p := w.spaces[parent];
    var mine, theirs := View(w'.pg, w'.spaces[id].root), View(w.pg, p.root);
    forall v | 0 <= v < n ensures SamePage(w'.pg, mine, theirs, v) {
      assert OwnsAt(theirs, p.frames, v);
      assert IsData(w.pg, Target(theirs[v]));
      assert PlacedAt(w'.pg, mine, w'.spaces[id].frames, v, FlagsIn(theirs)(v), BytesIn(w.pg, theirs)(v));
    }
  }

  /** The memory part of fork: a twin of the parent's space, or everything as before. */
  method ForkMemory(m: Machine, oldroot: nat, sz: nat, trampoline: nat, trapframe: nat,
                    ghost parent: nat, ghost id: nat, ghost parentframe: nat) returns (root: nat)
    requires m.Valid() && id !in m.spaces && trampoline % PGSIZE == trapframe % PGSIZE == 0
    requires ProcSpace(m.State(), parent, sz, trampoline, parentframe) && oldroot == m.spaces[parent].root
    modifies m`spaces, m.mem
    ensures m.Valid() && Alone(old(m.State()), id, m.State())
    ensures PagesNow(m.State(), id) == PagesNow(old(m.State()), id)
    ensures root == 0 ==> m.spaces == old(m.spaces)
    ensures root != 0 ==>
              && ProcSpace(m.State(), id, sz, trampoline, trapframe) && m.spaces[id].root == root
              && Twins(m.State(), parent, id, Up(sz))
    ensures root != 0 <==> old(|m.mem.free|) >= 3 + Up(sz) + |Paths(0, Up(sz)) - Tops()|
  {
    hide Partition, Next, View, Mem.Valid, Alone, PagesNow, MakePte, Undisturbed, UserOwned, Added, OwnsAt, Twins,
      Inherited, FlagsIn, BytesIn, Target, Paths, Tops, Placed;
    ghost var w0 := m.State();
    root := ProcPagetable(m, trampoline, trapframe, id);
    if root == 0 {
      return;
    }
    ghost var w1 := m.State();
    OtherKept(w0, id, w1, parent);
    var r := m.Copy(oldroot, root, sz, parent, id);
    ghost var w2 := m.State();
    AloneStep(w1, Change(id), id, w2);
    AloneTwice(w0, id, w1, w2);
    if r < 0 {
      ProcFreepagetable(m, root, 0, id, trampoline, trapframe);
      Undone(w0, id, w2, m.State());
      return 0;
    }
    OtherKept(w1, id, w2, parent);
    InheritedTwins(w1, parent, id, w2, Up(sz));
    CopiedProc(w1, parent, id, w2, sz, trampoline, trapframe);
  }

  lemma {:induction false} OtherKept(w: World, id: nat, w': World, i: nat)
    requires Alone(w, id, w') && i in w.spaces && i != id
    ensures Undisturbed(w, i, w') && i in w'.spaces && w'.spaces[i] == w.spaces[i]
    ensures View(w'.pg, w.spaces[i].root) == View(w.pg, w.spaces[i].root)
  {
    hide View;
  }

  lemma {:induction false} CopiedProc(w: World, parent: nat, id: nat, w': World, sz: nat, trampoline: nat,
                                      trapframe: nat)
    requires Inherited(w, parent, id, w', Up(sz)) && Up(sz) <= NPAGES - 2
    requires ProcSpace(w, id, 0, trampoline, trapframe)
    ensures ProcSpace(w', id, sz, trampoline, trapframe)
  {
    hide View, MakePte, Added, FlagsIn, BytesIn, ProcView;
    var view := View(w.pg, w.spaces[parent].root);
    assert Up(0) == 0 && Growth(0, sz) == Up(sz);
    AddedProc(View(w.pg, w.spaces[id].root), w.spaces[id].frames, w'.pg, w'.spaces[id], 0, sz,
              FlagsIn(view), BytesIn(w.pg, view), trampoline, trapframe);
  }

  lemma {:induction false} Undone(w0: World, id: nat, w: World, w': World)
    requires Alone(w0, id, w) && Alone(w, id, w') && w'.spaces == w.spaces - {id} && id in w.spaces && id !in w0.spaces
    requires PagesNow(w, id) == PagesNow(w0, id) && ToSet(w'.free) == ToSet(w.free) + PagesOf(w.spaces[id])
    ensures Alone(w0, id, w') && PagesNow(w', id) == PagesNow(w0, id) && w'.spaces == w0.spaces
  {
    AloneTwice(w0, id, w, w');
    hide Undisturbed;
    assert w0.spaces - {id} == w0.spaces;
  }

  /**
   A whole life: a process is made, grows, forks, and both end.  Whatever runs out on the
   way, the free pages afterwards are the free pages before.  `grown` and `forked` are the
   machine before and after fork.
   */
  method Life(m: Machine, n: nat, trampoline: nat, trapframe: nat, childframe: nat, ghost id: nat, ghost child: nat)
    returns (root: nat, sz: nat, root2: nat, ghost grown: World, ghost forked: World)
    requires m.Valid() && Small(m.State()) && id !in m.spaces && child !in m.spaces && id != child && n < 0x8000_0000
    requires trampoline % PGSIZE == trapframe % PGSIZE == childframe % PGSIZE == 0
    modifies m`spaces, m.mem
    ensures m.Valid() && m.spaces == old(m.spaces) && m.held == old(m.held)
    ensures ToSet(m.mem.free) == old(ToSet(m.mem.free))
    ensures root != 0 <==> old(|m.mem.free|) >= 3
    ensures root != 0 ==>
              && Alone(old(m.State()), id, grown) && ProcSpace(grown, id, sz, trampoline, trapframe)
              && (sz == n || sz == 0) && Alone(grown, child, forked)
              && (root2 != 0 <==> |grown.free| >= 3 + Up(sz) + |Paths(0, Up(sz)) - Tops()|)
    ensures root == 0 ==> root2 == 0
    ensures root2 != 0 ==> ProcSpace(forked, child, sz, trampoline, childframe) && Twins(forked, id, child, Up(sz))
  {
    hide Partition, View, Mem.Valid, Alone, PagesNow, ProcView, Undisturbed, Twins, Small, ToSet, PagesOf, Paths,
      Tops;
    ghost var w0 := m.State();
    grown, forked, sz, root2 := w0, w0, 0, 0;
    root := ProcPagetable(m, trampoline, trapframe, id);
    ghost var w1 := m.State();
    if root == 0 {
      NothingLost(w0, id, w1);
      return;
    }
    SmallKept(w0, id, w1);
    var r;
    r, sz := Growproc(m, root, 0, n, id, trampoline, trapframe);
    ghost var w2 := m.State();
    grown := w2;
    AloneTwice(w0, id, w1, w2);
    Absent(w0, id, w2, child);
    root2 := ForkMemory(m, root, sz, trampoline, childframe, id, child, trapframe);
    ghost var w3 := m.State();
    forked := w3;
    OtherKept(w2, child, w3, id);
    if root2 != 0 {
      ProcFreepagetable(m, root2, sz, child, trampoline, childframe);
      Undone(w2, child, w3, m.State());
    }
    ghost var w4 := m.State();
    OtherKept(w2, child, w4, id);
    NothingLost(w2, child, w4);
    ProcFreepagetable(m, root, sz, id, trampoline, trapframe);
    LifeOver(w0, id, w2, w4, m.State());
  }

  lemma {:induction false} NothingLost(w: World, id: nat, w': World)
    requires Alone(w, id, w') && PagesNow(w', id) == PagesNow(w, id) && id !in w.spaces && w'.spaces == w.spaces
    ensures ToSet(w'.free) == ToSet(w.free) && w'.held == w.held
  {
  }

  lemma {:induction false} Absent(w: World, id: nat, w': World, child: nat)
    requires Alone(w, id, w') && child !in w.spaces && child != id
    ensures child !in w'.spaces
  {
    assert child !in w'.spaces - {id};
  }

  lemma {:induction false} LifeOver(w0: World, id: nat, w2: World, w4: World, w5: World)
    requires Alone(w0, id, w2) && PagesNow(w2, id) == PagesNow(w0, id) && id !in w0.spaces && id in w2.spaces
    requires w4.spaces == w2.spaces && ToSet(w4.free) == ToSet(w2.free) && w4.held == w2.held
    requires Alone(w4, id, w5) && w5.spaces == w4.spaces - {id}
    requires ToSet(w5.free) == ToSet(w4.free) + PagesOf(w4.spaces[id])
    ensures w5.spaces == w0.spaces && ToSet(w5.free) == ToSet(w0.free) && w5.held == w0.held
  {
    assert w0.spaces - {id} == w0.spaces;
  }
}
