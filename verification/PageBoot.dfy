/** The first process, and runs from it that end in each of the two panics. */
module PageBoot {
  import opened PagePool
  import opened PageOps
  import opened PageNeeds
  import opened PageSizes
  import PageRefs
  import opened PageSpaces
  import opened PageRuns
  import opened PagePanics
  import opened PageOwn

  const NONE := Space(0, 0, 0)

  // ---- userinit ----

  /** All pages free. */
  function Start(free: seq<int>): Vm { Vm(free, {}, map[], map[], map[], map[]) }

  /** Free pages that the first process takes: kernel stack, directory and kernel part, one table and one page. */
  function BootNeeds(kmap: seq<KPage>): nat { SetupNeeds(kmap) + 3 }

  predicate BootRoom(free: seq<int>, kmap: seq<KPage>) {
    Distinct(free) && 0 !in free && KernelPages(kmap) && BootNeeds(kmap) <= |free|
  }

  /** The stack and the directory of the first process */
  function BootDir(free: seq<int>, kmap: seq<KPage>): (Vm, int)
    requires BootRoom(free, kmap)
  {
    Setup(Take(Start(free), Elsewhere), kmap)
  }

  lemma BootDirOk(free: seq<int>, kmap: seq<KPage>)
    requires BootRoom(free, kmap)
    ensures var (v, d) := BootDir(free, kmap); var v1 := Take(Start(free), Elsewhere);
      && Inv(v1) && FreshDir(v1, v, d, kmap) && d != 0 && |v.free| == |free| - 1 - SetupNeeds(kmap) && Hands(v) == {}
      && (forall p :: Owns(v1, p, Elsewhere) <==> p == free[0]) && Pages(v1) == (set p | p in free)
      && Tables(v, d) == KernelTables(kmap, 0)
  {
    var v0 := Start(free);
    var v1 := Take(v0, Elsewhere);
    TakeStack(v0);
    SetupOkIff(v1, kmap);
    SetupFresh(v1, kmap);
  }

  /** allocuvm for one more page, in a directory that has exactly those below the size */
  lemma OnePageGoes(v: Vm, d: int, sz: nat)
    requires Inv(v) && d in v.dirs && sz + PGSIZE < KERNBASE && Maps(v, d, sz) && Costs(v, d, RoundUp(sz)) <= |v.free|
    ensures var t := MapOne(v, d, RoundUp(sz), 0, 6);
      && t.Went? && |t.v.free| == |v.free| - Costs(v, d, RoundUp(sz)) &&
         AllocLoop(v, d, RoundUp(sz), RoundUp(sz + PGSIZE)) == t
  {
    var a := RoundUp(sz);
    MapOneNot(v, d, a, 0, 6);
    MapOneNew(v, d, a, 0, 6);
    var t := MapOne(v, d, a, 0, 6);
    assert RoundUp(sz + PGSIZE) == a + 1 && AllocLoop(t.v, d, a + 1, a + 1) == t;
  }

  lemma OnePage(v: Vm, d: int, sz: nat, o: Outcome)
    requires Inv(v) && d in v.dirs && sz + PGSIZE < KERNBASE && Maps(v, d, sz)
    requires Costs(v, d, RoundUp(sz)) <= |v.free| && o == Alloc(v, d, sz, sz + PGSIZE)
    ensures o.Ret? && o.r == sz + PGSIZE && |o.v.free| == |v.free| - Costs(v, d, RoundUp(sz))
  {
    OnePageGoes(v, d, sz);
  }

  lemma OnePageMaps(v: Vm, d: int, sz: nat, o: Outcome)
    requires Inv(v) && d in v.dirs && Hands(v) == {} && sz + PGSIZE < KERNBASE && Maps(v, d, sz)
    requires o == Alloc(v, d, sz, sz + PGSIZE) && o.Ret? && o.r == sz + PGSIZE
    ensures Maps(o.v, d, sz + PGSIZE)
  {
    AllocTidy(v, d, sz, sz + PGSIZE, o);
  }

  lemma OnePageEdits(v: Vm, d: int, sz: nat, o: Outcome)
    requires Inv(v) && d in v.dirs && Hands(v) == {} && o == Alloc(v, d, sz, sz + PGSIZE) && o.Ret?
    ensures Edits(v, o.v, d)
  {
    AllocMeans(v, d, sz, sz + PGSIZE);
  }

  lemma BootAlloc(free: seq<int>, kmap: seq<KPage>, v: Vm, d: int, o: Outcome)
    requires BootRoom(free, kmap) && (v, d) == BootDir(free, kmap) && o == Alloc(v, d, 0, PGSIZE)
    ensures o.Ret? && o.r == PGSIZE && Edits(v, o.v, d) && Maps(o.v, d, PGSIZE)
    ensures |o.v.free| == |free| - BootNeeds(kmap)
  {
    BootDirOk(free, kmap);
    BootEmpty(free, kmap, v, d);
    assert RoundUp(0) == 0;
    OnePage(v, d, 0, o);
    OnePageMaps(v, d, 0, o);
    OnePageEdits(v, d, 0, o);
  }

  lemma BootEmpty(free: seq<int>, kmap: seq<KPage>, v: Vm, d: int)
    requires BootRoom(free, kmap) && (v, d) == BootDir(free, kmap)
    ensures Maps(v, d, 0) && Costs(v, d, 0) == 2
  {
    BootDirOk(free, kmap);
    TablesIn(v, d, 0);
    assert forall a :: a in Rest(kmap, 0) ==> a >= USER;
  }

  function Slots(n: nat): seq<Space> { seq(n, _ => NONE) }

  /** userinit: the first of `n` slots has a process of one page. */
  function Boot(free: seq<int>, n: nat, kmap: seq<KPage>): Kern
    requires BootRoom(free, kmap) && n > 0
  {
    var (v, d) := BootDir(free, kmap);
    var o := Alloc(v, d, 0, PGSIZE);
    BootAlloc(free, kmap, v, d, o);
    Kern(o.v, seq(n, _ => PageRefs.Ref(-1, 0)), Slots(n)[0 := Space(d, PGSIZE, free[0])])
  }

  lemma NoUsers(n: nat)
    ensures PageRefs.Inv(PageRefs.Sys(seq(n, _ => PageRefs.Ref(-1, 0)), Dirs(Slots(n))))
  {
    var s := PageRefs.Sys(seq(n, _ => PageRefs.Ref(-1, 0)), Dirs(Slots(n)));
    forall d | d != 0 ensures PageRefs.All(s, d) == 0 {
      if PageRefs.All(s, d) >= 1 { var i := PageRefs.SomeSharer(s.dirs, d, |s.dirs|); }
    }
  }

  lemma BootRefs(n: nat, p: Space)
    requires n > 0 && p.dir != 0
    ensures PageRefs.Inv(PageRefs.Sys(seq(n, _ => PageRefs.Ref(-1, 0)), Dirs(Slots(n)[0 := p])))
  {
    var s := PageRefs.Sys(seq(n, _ => PageRefs.Ref(-1, 0)), Dirs(Slots(n)));
    NoUsers(n);
    if PageRefs.All(s, p.dir) >= 1 { var i := PageRefs.SomeSharer(s.dirs, p.dir, |s.dirs|); }
    PageRefs.AttachInv(s, 0, p.dir);
    DirsSet(Slots(n), 0, p);
  }

  lemma BootOk(free: seq<int>, n: nat, kmap: seq<KPage>)
    requires BootRoom(free, kmap) && n > 0
    ensures var k := Boot(free, n, kmap);
      && KernOk(k) && Tidy(k) && |k.vm.free| == |free| - BootNeeds(kmap) && Pages(k.vm) == (set p | p in free)
  {
    var (v, d) := BootDir(free, kmap);
    BootDirOk(free, kmap);
    BootAlloc(free, kmap, v, d, Alloc(v, d, 0, PGSIZE));
    BootMatched(free, n, kmap, v, d);
    BootRefs(n, Space(d, PGSIZE, free[0]));
    assert forall i :: Used(Boot(free, n, kmap), i) ==> i == 0;
  }

  lemma BootMatched(free: seq<int>, n: nat, kmap: seq<KPage>, v: Vm, d: int)
    requires BootRoom(free, kmap) && n > 0 && (v, d) == BootDir(free, kmap) && d != 0
    ensures Matched(Boot(free, n, kmap))
  {
    var k, v1 := Boot(free, n, kmap), Take(Start(free), Elsewhere);
    BootDirOk(free, kmap);
    BootAlloc(free, kmap, v, d, Alloc(v, d, 0, PGSIZE));
    forall p ensures Owns(k.vm, p, Elsewhere) <==> p == free[0] {
      StacksKept(v1, v, d, p);
      StacksKept(v, k.vm, d, p);
    }
    assert k.vm.dirs == {d};
    assert Used(k, 0) && k.procs[0].stack == free[0];
  }

  // ---- Runs that panic ----

  lemma RunTwo(k: Kern, e1: Event, e2: Event, kmap: seq<KPage>, k1: Kern)
    requires Step(k, e1, kmap) == Ran(k1)
    ensures Run(k, [e1, e2], kmap) == Step(k1, e2, kmap)
  {
    assert [e1, e2][1..] == [e2] && [e2][1..] == [];
    assert Run(k1, [e2], kmap) == Step(k1, e2, kmap);
  }

  lemma RunThree(k: Kern, e1: Event, e2: Event, e3: Event, kmap: seq<KPage>, k1: Kern, k2: Kern)
    requires Step(k, e1, kmap) == Ran(k1) && Step(k1, e2, kmap) == Ran(k2)
    ensures Run(k, [e1, e2, e3], kmap) == Step(k2, e3, kmap)
  {
    assert [e1, e2, e3][1..] == [e2, e3];
    RunTwo(k1, e2, e3, kmap, k2);
  }

  /** A page appears above the size of a process: the next sbrk of that process panics. */
  lemma GrownUnder(k: Kern, c: nat, kmap: seq<KPage>)
    requires KernOk(k) && KernelPages(kmap) && Used(k, c) && k.procs[c].sz + PGSIZE < KERNBASE && k.vm.free != []
    requires (k.procs[c].dir, RoundUp(k.procs[c].sz)) in k.vm.pte
    ensures Step(k, Sbrk(c, PGSIZE), kmap) == Remapped
  {
    var p := k.procs[c];
    var lo := RoundUp(p.sz);
    OneFirst(k.vm, p.dir, lo, RoundUp(p.sz + PGSIZE), true, lo);
    NeedNone(Tables(k.vm, p.dir), lo);
    SbrkPanicsIff(k, c, PGSIZE, SbrkIn(k, c, PGSIZE));
  }

  lemma OneMoreMapped(v: Vm, d: int, sz: nat, o: Outcome)
    requires Inv(v) && d in v.dirs && Hands(v) == {} && sz + PGSIZE < KERNBASE && Maps(v, d, sz)
    requires o == Alloc(v, d, sz, sz + PGSIZE) && o.Ret? && o.r == sz + PGSIZE
    ensures (d, RoundUp(sz)) in o.v.pte
  {
    OnePageMaps(v, d, sz, o);
    assert RoundUp(sz) < RoundUp(sz + PGSIZE) <= USER;
  }

  /** A process with exactly its pages grows by one. */
  lemma GrowsOne(k: Kern, c: nat)
    requires KernOk(k) && Used(k, c) && k.procs[c].sz + PGSIZE < KERNBASE && Maps(k.vm, k.procs[c].dir, k.procs[c].sz)
    requires Costs(k.vm, k.procs[c].dir, RoundUp(k.procs[c].sz)) < |k.vm.free|
    ensures SbrkIn(k, c, PGSIZE).Ran?
    ensures var k' := SbrkIn(k, c, PGSIZE).k; k'.procs == k.procs[c := k.procs[c].(sz := k.procs[c].sz + PGSIZE)]
    ensures var k' := SbrkIn(k, c, PGSIZE).k;
      (k.procs[c].dir, RoundUp(k.procs[c].sz)) in k'.vm.pte && k'.vm.free != []
  {
    var p := k.procs[c];
    var o := Alloc(k.vm, p.dir, p.sz, p.sz + PGSIZE);
    assert SlotOk(k, c);
    OnePage(k.vm, p.dir, p.sz, o);
    OneMoreMapped(k.vm, p.dir, p.sz, o);
  }

  /** The two threads after clone have the same directory and size, and its entries are those from before. */
  lemma Cloned(k: Kern, c: nat, k': Kern)
    requires KernOk(k) && Used(k, c) && HasSlot(k) && k' == CloneIn(k, c)
    ensures KernOk(k') && Used(k', c) && Used(k', FreeSlot(k.procs, 0)) && c != FreeSlot(k.procs, 0)
    ensures k'.procs[c] == k.procs[c] && k'.procs[FreeSlot(k.procs, 0)].dir == k.procs[c].dir
    ensures k'.procs[FreeSlot(k.procs, 0)].sz == k.procs[c].sz
    ensures k'.vm.pte == k.vm.pte && k'.vm.pde == k.vm.pde && |k'.vm.free| == |k.vm.free| - 1
  {
    CloneOk(k, c);
  }

  /** The other thread of two that share a directory, after one of them grew by a page */
  lemma SharerGrows(k: Kern, c: nat, np: nat, kmap: seq<KPage>)
    requires KernOk(k) && KernelPages(kmap) && Used(k, c) && Used(k, np) && c != np && k.procs[c].sz + PGSIZE < KERNBASE
    requires k.procs[np].dir == k.procs[c].dir && k.procs[np].sz == k.procs[c].sz
    requires Maps(k.vm, k.procs[c].dir, k.procs[c].sz)
    requires Costs(k.vm, k.procs[c].dir, RoundUp(k.procs[c].sz)) < |k.vm.free|
    ensures SbrkIn(k, c, PGSIZE).Ran? && Step(SbrkIn(k, c, PGSIZE).k, Sbrk(np, PGSIZE), kmap) == Remapped
  {
    GrowsOne(k, c);
    SbrkOk(k, c, PGSIZE, SbrkIn(k, c, PGSIZE).k);
    GrownUnder(SbrkIn(k, c, PGSIZE).k, np, kmap);
  }

  /** clone, sbrk in one thread, sbrk in the other: "remap". */
  lemma CloneThenGrow(k: Kern, c: nat, kmap: seq<KPage>)
    requires KernOk(k) && KernelPages(kmap) && Used(k, c) && HasSlot(k) && k.procs[c].sz + PGSIZE < KERNBASE
    requires Maps(k.vm, k.procs[c].dir, k.procs[c].sz)
    requires Costs(k.vm, k.procs[c].dir, RoundUp(k.procs[c].sz)) + 2 <= |k.vm.free|
    ensures Run(k, [Clone(c), Sbrk(c, PGSIZE), Sbrk(FreeSlot(k.procs, 0), PGSIZE)], kmap) == Remapped
  {
    var p, np, k1 := k.procs[c], FreeSlot(k.procs, 0), CloneIn(k, c);
    Cloned(k, c, k1);
    MapsSame(k.vm, k1.vm, p.dir, p.sz);
    SharerGrows(k1, c, np, kmap);
    RunThree(k, Clone(c), Sbrk(c, PGSIZE), Sbrk(np, PGSIZE), kmap, k1, SbrkIn(k1, c, PGSIZE).k);
  }

  /** A page below the size of a process is gone, and those under it are there: a fork panics. */
  lemma ShrunkUnder(k: Kern, c: nat, kmap: seq<KPage>, m: nat)
    requires KernOk(k) && KernelPages(kmap) && Used(k, c) && FreeSlot(k.procs, 0) < |k.procs|
    requires FirstAt(k.vm, k.procs[c].dir, 0, RoundUp(k.procs[c].sz), false, m) && m < RoundUp(k.procs[c].sz)
    requires 1 + CopyNeeds(m, kmap) <= |k.vm.free|
    ensures Step(k, Fork(c), kmap) == Missing
  {
    OneFirst(k.vm, k.procs[c].dir, 0, RoundUp(k.procs[c].sz), false, m);
    ForkPanicsIff(k, c, kmap, ForkIn(k, c, kmap));
  }

  /** deallocuvm takes no page. */
  lemma {:induction false} DeallocLoopFrees(v: Vm, d: int, a: nat, hi: nat)
    ensures |DeallocLoop(v, d, a, hi).free| >= |v.free|
    decreases hi - a
  {
    if a < hi {
      if (d, a / NPDE) !in v.pde {
        DeallocLoopFrees(v, d, (a / NPDE + 1) * NPDE, hi);
      } else {
        DeallocLoopFrees(FreePage(v, d, a), d, a + 1, hi);
      }
    }
  }

  lemma DeallocFrees(v: Vm, d: int, oldsz: nat, newsz: nat)
    ensures |Dealloc(v, d, oldsz, newsz).free| >= |v.free|
  {
    if newsz < oldsz { DeallocLoopFrees(v, d, RoundUp(newsz), RoundUp(oldsz)); }
  }

  lemma DeallocMaps(v: Vm, d: int, sz: nat, newsz: nat, w: Vm)
    requires Inv(v) && newsz < sz < KERNBASE && Maps(v, d, sz) && w == Dealloc(v, d, sz, newsz)
    ensures Maps(w, d, newsz)
  {
    DeallocCuts(v, d, sz, newsz);
    ShrinkMaps(v, w, d, sz, newsz);
  }

  lemma LastMissing(w: Vm, d: int, newsz: nat)
    requires newsz + PGSIZE < KERNBASE && Maps(w, d, newsz)
    ensures First(w, d, 0, RoundUp(newsz + PGSIZE), false) == RoundUp(newsz) < RoundUp(newsz + PGSIZE)
  {
    assert RoundUp(newsz + PGSIZE) == RoundUp(newsz) + 1 <= USER;
    OneFirst(w, d, 0, RoundUp(newsz + PGSIZE), false, RoundUp(newsz));
  }

  /** A process with the pages of a size that is one page less */
  lemma LastGone(k: Kern, c: nat, kmap: seq<KPage>, newsz: nat)
    requires KernOk(k) && KernelPages(kmap) && Used(k, c) && FreeSlot(k.procs, 0) < |k.procs|
    requires k.procs[c].sz == newsz + PGSIZE < KERNBASE && Maps(k.vm, k.procs[c].dir, newsz)
    requires 1 + CopyNeeds(RoundUp(newsz), kmap) <= |k.vm.free|
    ensures Step(k, Fork(c), kmap) == Missing
  {
    LastMissing(k.vm, k.procs[c].dir, newsz);
    ForkPanicsIff(k, c, kmap, ForkIn(k, c, kmap));
  }

  /** sbrk down to `newsz` */
  lemma SbrkDown(k: Kern, c: nat, n: int, newsz: nat, kmap: seq<KPage>)
    requires Used(k, c) && n < 0 && newsz == k.procs[c].sz + n && k.procs[c].sz < KERNBASE
    ensures Step(k, Sbrk(c, n), kmap) == Ran(Shrunk(k, c, newsz))
  {
    assert Less(k.procs[c].sz, n) == newsz;
  }

  lemma StillFree(k: Kern, c: nat, newsz: nat, spare: nat)
    requires Used(k, c) && spare < |k.procs| && k.procs[spare].dir == 0
    ensures FreeSlot(Shrunk(k, c, newsz).procs, 0) < |k.procs|
  {
    assert Shrunk(k, c, newsz).procs[spare].dir == 0;
  }

  lemma ShrunkMaps(k: Kern, c: nat, newsz: nat)
    requires KernOk(k) && Used(k, c) && newsz < k.procs[c].sz && Maps(k.vm, k.procs[c].dir, k.procs[c].sz)
    ensures Maps(Shrunk(k, c, newsz).vm, k.procs[c].dir, newsz) && |Shrunk(k, c, newsz).vm.free| >= |k.vm.free|
  {
    var p := k.procs[c];
    assert SlotOk(k, c);
    DeallocMaps(k.vm, p.dir, p.sz, newsz, Dealloc(k.vm, p.dir, p.sz, newsz));
    DeallocFrees(k.vm, p.dir, p.sz, newsz);
  }

  /** The other thread of two that share a directory, after one of them shrank by a page */
  lemma SharerShrinks(k: Kern, c: nat, np: nat, kmap: seq<KPage>, newsz: nat, spare: nat)
    requires KernOk(k) && KernelPages(kmap) && Used(k, c) && Used(k, np) && c != np && k.procs[c].sz == newsz + PGSIZE
    requires k.procs[np].dir == k.procs[c].dir && k.procs[np].sz == k.procs[c].sz && spare < |k.procs|
    requires k.procs[spare].dir == 0
    requires Maps(k.vm, k.procs[c].dir, k.procs[c].sz) && 1 + CopyNeeds(RoundUp(newsz), kmap) <= |k.vm.free|
    ensures Step(Shrunk(k, c, newsz), Fork(np), kmap) == Missing
  {
    assert SlotOk(k, c);
    ShrunkMaps(k, c, newsz);
    ShrinkOk(k, c, newsz);
    StillFree(k, c, newsz, spare);
    LastGone(Shrunk(k, c, newsz), np, kmap, newsz);
  }

  lemma ClonedMaps(k: Kern, c: nat, k': Kern)
    requires KernOk(k) && Used(k, c) && HasSlot(k) && k' == CloneIn(k, c) && Maps(k.vm, k.procs[c].dir, k.procs[c].sz)
    ensures Maps(k'.vm, k.procs[c].dir, k.procs[c].sz) && k.procs[c].sz < KERNBASE
  {
    assert SlotOk(k, c);
    MapsSame(k.vm, k'.vm, k.procs[c].dir, k.procs[c].sz);
  }

  /** clone, a shrink by a page in one thread, fork in the other: the page is not there. */
  lemma CloneThenShrink(k: Kern, c: nat, kmap: seq<KPage>, newsz: nat, spare: nat)
    requires KernOk(k) && KernelPages(kmap) && Used(k, c) && HasSlot(k) && k.procs[c].sz == newsz + PGSIZE
    requires FreeSlot(k.procs, 0) < spare < |k.procs| && k.procs[spare].dir == 0
    requires Maps(k.vm, k.procs[c].dir, k.procs[c].sz) && CopyNeeds(RoundUp(newsz), kmap) + 2 <= |k.vm.free|
    ensures Run(k, [Clone(c), Sbrk(c, 0 - PGSIZE), Fork(FreeSlot(k.procs, 0))], kmap) == Missing
  {
    var p, np, k1 := k.procs[c], FreeSlot(k.procs, 0), CloneIn(k, c);
    Cloned(k, c, k1);
    ClonedMaps(k, c, k1);
    SbrkDown(k1, c, 0 - PGSIZE, newsz, kmap);
    SharerShrinks(k1, c, np, kmap, newsz, spare);
    RunThree(k, Clone(c), Sbrk(c, 0 - PGSIZE), Fork(np), kmap, k1, Shrunk(k1, c, newsz));
  }

  /** Without any thread: sbrk to nothing frees the pages and keeps the size, and fork panics at the first page. */
  lemma ShrinkThenFork(k: Kern, c: nat, kmap: seq<KPage>)
    requires KernOk(k) && KernelPages(kmap) && Used(k, c) && HasSlot(k) && k.procs[c].sz > 0
    requires CopyNeeds(0, kmap) + 1 <= |k.vm.free|
    ensures Run(k, [Sbrk(c, 0 - k.procs[c].sz), Fork(c)], kmap) == Missing
  {
    assert SlotOk(k, c);
    SbrkDown(k, c, 0 - k.procs[c].sz, 0, kmap);
    NothingForks(k, c, kmap);
    RunTwo(k, Sbrk(c, 0 - k.procs[c].sz), Fork(c), kmap, Shrunk(k, c, 0));
  }

  lemma NothingForks(k: Kern, c: nat, kmap: seq<KPage>)
    requires KernOk(k) && KernelPages(kmap) && Used(k, c) && HasSlot(k) && k.procs[c].sz > 0
    requires CopyNeeds(0, kmap) + 1 <= |k.vm.free|
    ensures Step(Shrunk(k, c, 0), Fork(c), kmap) == Missing
  {
    var p := k.procs[c];
    ShrinkToNothing(k, c);
    ShrinkOk(k, c, 0);
    DeallocFrees(k.vm, p.dir, p.sz, 0);
    ShrunkUnder(Shrunk(k, c, 0), c, kmap, 0);
  }

  lemma BootSlots(free: seq<int>, n: nat, kmap: seq<KPage>)
    requires BootRoom(free, kmap) && n >= 3
    ensures var k := Boot(free, n, kmap);
      Used(k, 0) && k.procs[0].sz == PGSIZE && FreeSlot(k.procs, 0) == 1 && |k.procs| == n && k.procs[2].dir == 0
  {
    BootDirOk(free, kmap);
    var k := Boot(free, n, kmap);
    assert k.procs[0].dir != 0 && k.procs[1] == NONE && k.procs[2] == NONE;
    assert FreeSlot(k.procs, 1) == 1;
  }

  /** The three runs for a process of one page in the first of three slots. */
  lemma OnePagePanics(k: Kern, kmap: seq<KPage>)
    requires KernOk(k) && KernelPages(kmap) && Tidy(k) && Used(k, 0) && k.procs[0].sz == PGSIZE
    requires FreeSlot(k.procs, 0) == 1 && |k.procs| >= 3 && k.procs[2].dir == 0 && CopyNeeds(0, kmap) + 4 <= |k.vm.free|
    ensures Run(k, [Clone(0), Sbrk(0, PGSIZE), Sbrk(1, PGSIZE)], kmap) == Remapped
    ensures Run(k, [Clone(0), Sbrk(0, 0 - PGSIZE), Fork(1)], kmap) == Missing
    ensures Run(k, [Sbrk(0, 0 - PGSIZE), Fork(0)], kmap) == Missing
  {
    assert OwnOf(k, 0) && RoundUp(0) == 0;
    CloneThenGrow(k, 0, kmap);
    CloneThenShrink(k, 0, kmap, 0, 2);
    ShrinkThenFork(k, 0, kmap);
  }

  /** All three runs start from the first process, given three slots and some memory. */
  lemma BootPanics(free: seq<int>, n: nat, kmap: seq<KPage>)
    requires BootRoom(free, kmap) && n >= 3 && BootNeeds(kmap) + CopyNeeds(0, kmap) + 4 <= |free|
    ensures var k := Boot(free, n, kmap);
      && Run(k, [Clone(0), Sbrk(0, PGSIZE), Sbrk(1, PGSIZE)], kmap) == Remapped
      && Run(k, [Clone(0), Sbrk(0, 0 - PGSIZE), Fork(1)], kmap) == Missing
      && Run(k, [Sbrk(0, 0 - PGSIZE), Fork(0)], kmap) == Missing
  {
    BootOk(free, n, kmap);
    BootSlots(free, n, kmap);
    OnePagePanics(Boot(free, n, kmap), kmap);
  }
}
