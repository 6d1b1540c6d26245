/** What holds in every run of fork, clone, sbrk, exec and wait: each page is free or used once, and a directory with
    its pages is freed exactly when its last user goes. */
module PageRuns {
  import opened PagePool
  import opened PageOps
  import opened PageSizes
  import opened PageExec
  import PageRefs
  import opened PageSpaces

  // ---- Kernel stacks ----

  lemma TakeStack(v: Vm)
    requires Inv(v) && v.free != []
    ensures var w := Take(v, Elsewhere);
      && Inv(w) && Pages(w) == Pages(v) && Hands(w) == Hands(v) && v.free[0] !in v.owner
      && (forall p :: Owns(w, p, Elsewhere) <==> Owns(v, p, Elsewhere) || p == v.free[0])
  {
    TakeFree(v, Elsewhere);
    var w := Take(v, Elsewhere);
    forall p | p in w.owner ensures Held(w, p) { assert p != v.free[0] ==> Held(v, p); }
  }

  lemma GiveStack(v: Vm, p: int)
    requires Inv(v) && Owns(v, p, Elsewhere)
    ensures var w := Give(v, p);
      && Inv(w) && Pages(w) == Pages(v) && FreeSet(w) == FreeSet(v) + {p} && Hands(w) == Hands(v)
      && (forall q :: Owns(w, q, Elsewhere) <==> Owns(v, q, Elsewhere) && q != p)
  {
    GiveFree(v, p);
    var w := Give(v, p);
    forall q | q in w.owner ensures Held(w, q) { assert Held(v, q); }
  }

  /** Work on a directory leaves the kernel stacks alone. */
  lemma StacksKept(v: Vm, w: Vm, d: int, p: int)
    requires Outside(v, w, d)
    ensures Owns(w, p, Elsewhere) <==> Owns(v, p, Elsewhere)
  {
    assert Kept(v, w, d, p);
  }

  lemma DirsKept(v: Vm, w: Vm, d: int)
    requires Outside(v, w, d)
    ensures w.dirs - {d} == v.dirs - {d}
  {
    forall e ensures e in w.dirs - {d} <==> e in v.dirs - {d} {
      assert e != d ==> (e in w.dirs <==> e in v.dirs);
    }
  }

  /** A directory made since `v`: there is one more, and the kernel stacks are those from before. */
  lemma MadeOne(v: Vm, w: Vm, d: int)
    requires Making(v, w, d)
    ensures Inv(w) && Hands(w) == {} && Pages(w) == Pages(v) && d !in v.dirs && w.dirs == v.dirs + {d}
    ensures forall p :: Owns(w, p, Elsewhere) <==> Owns(v, p, Elsewhere)
  {
    assert MakingOf(v, w, d);
    DirsKept(v, w, d);
    assert w.dirs == (w.dirs - {d}) + {d} && v.dirs == v.dirs - {d};
    forall p ensures Owns(w, p, Elsewhere) <==> Owns(v, p, Elsewhere) { StacksKept(v, w, d, p); }
  }

  // ---- clone ----

  lemma DirsSet(procs: seq<Space>, i: nat, p: Space)
    requires i < |procs|
    ensures Dirs(procs[i := p]) == Dirs(procs)[i := p.dir]
  {
  }

  /** Slot `np` gets directory `d`, which `w` has, and a stack that was free. */
  lemma SlotAdded(k: Kern, k': Kern, np: nat, d: int, sz: nat, stack: int)
    requires Matched(k) && np < |k.procs| && k.procs[np].dir == 0 && k'.procs == k.procs[np := Space(d, sz, stack)]
    requires d != 0
    requires sz < KERNBASE && k'.vm.dirs == k.vm.dirs + {d} && stack !in k.vm.owner && 0 !in k.vm.dirs
    requires forall p :: Owns(k'.vm, p, Elsewhere) <==> Owns(k.vm, p, Elsewhere) || p == stack
    ensures Matched(k')
  {
    forall i: nat ensures Used(k', i) <==> i == np || Used(k, i) {
    }
    forall i: nat | Used(k', i) ensures SlotOk(k', i) {
      if i != np { assert Used(k, i) && SlotOk(k, i); }
    }
    forall e | e in k'.vm.dirs ensures HasDir(k', e) {
      if e == d {
        assert k'.procs[np].dir == d;
      } else {
        assert HasDir(k, e);
        var i :| 0 <= i < |k.procs| && k.procs[i].dir == e;
        assert i == np || k'.procs[i].dir == e;
      }
    }
    forall i, j | Used(k', i) && Used(k', j) && i != j ensures k'.procs[i].stack != k'.procs[j].stack {
      assert i != np ==> Used(k, i) && SlotOk(k, i);
      assert j != np ==> Used(k, j) && SlotOk(k, j);
    }
    forall p | Owns(k'.vm, p, Elsewhere) ensures HasStack(k', p) {
      if p == stack {
        assert Used(k', np) && k'.procs[np].stack == p;
      } else {
        assert HasStack(k, p);
        var i :| Used(k, i) && k.procs[i].stack == p;
        assert Used(k', i) && k'.procs[i].stack == p;
      }
    }
  }

  lemma NoDirZero(k: Kern)
    requires KernOk(k)
    ensures 0 !in k.vm.dirs && 0 !in k.vm.free
  {
    assert 0 in k.vm.dirs ==> Owns(k.vm, 0, DirOf);
    assert 0 in k.vm.free ==> 0 in Pages(k.vm);
  }

  lemma CloneOk(k: Kern, c: nat)
    requires KernOk(k) && Used(k, c)
    ensures KernOk(CloneIn(k, c)) && Pages(CloneIn(k, c).vm) == Pages(k.vm)
  {
    if HasSlot(k) {
      var k', np, d := CloneIn(k, c), FreeSlot(k.procs, 0), k.procs[c].dir;
      TakeStack(k.vm);
      DirsSet(k.procs, np, k'.procs[np]);
      PageRefs.ShareInv(Refs(k), np, c);
      assert SlotOk(k, c);
      NoDirZero(k);
      SlotAdded(k, k', np, d, k.procs[c].sz, k.vm.free[0]);
    }
  }

  // ---- fork ----

  lemma FreshDirUnused(k: Kern, d: int)
    requires KernOk(k) && d !in k.vm.dirs && d != 0
    ensures PageRefs.All(Refs(k), d) == 0
  {
    forall i | 0 <= i < |k.procs| ensures k.procs[i].dir != d {
      if Used(k, i) { assert SlotOk(k, i); }
    }
    SharerHasDir(k, d);
  }

  /** What fork's success leaves in the pages. */
  lemma ForkPages(k: Kern, c: nat, kmap: seq<KPage>, o: Outcome)
    requires KernOk(k) && Used(k, c) && KernelPages(kmap) && HasSlot(k)
    requires o == Copy(Take(k.vm, Elsewhere), k.procs[c].dir, k.procs[c].sz, kmap) && o.Ret? && o.r != 0
    ensures Inv(o.v) && Hands(o.v) == {} && Pages(o.v) == Pages(k.vm) && o.r !in k.vm.dirs
    ensures o.v.dirs == k.vm.dirs + {o.r}
    ensures forall p :: Owns(o.v, p, Elsewhere) <==> Owns(k.vm, p, Elsewhere) || p == k.vm.free[0]
  {
    var v1 := Take(k.vm, Elsewhere);
    assert SlotOk(k, c);
    TakeStack(k.vm);
    CopyMeans(v1, k.procs[c].dir, k.procs[c].sz, kmap, o);
    MadeOne(v1, o.v, o.r);
  }

  /** Same but for the order of the free list: so is the state of the processes. */
  lemma SameOk(v: Vm, w: Vm)
    requires Same(v, w)
    ensures Pages(w) == Pages(v) && Hands(w) == Hands(v) && w.dirs == v.dirs
    ensures forall p :: Owns(w, p, Elsewhere) <==> Owns(v, p, Elsewhere)
  {
    forall p ensures (p in Pages(w) <==> p in Pages(v)) && (p in Hands(w) <==> p in Hands(v)) {
      assert (p in w.free <==> p in v.free) && (p in w.owner <==> p in v.owner);
    }
  }

  lemma ForkFails(k: Kern, c: nat, kmap: seq<KPage>, o: Outcome)
    requires KernOk(k) && Used(k, c) && KernelPages(kmap) && HasSlot(k)
    requires o == Copy(Take(k.vm, Elsewhere), k.procs[c].dir, k.procs[c].sz, kmap) && o.Ret? && o.r == 0
    ensures var w := Give(o.v, k.vm.free[0]); Inv(w) && Same(k.vm, w)
  {
    var v1, stack := Take(k.vm, Elsewhere), k.vm.free[0];
    assert SlotOk(k, c);
    TakeStack(k.vm);
    NoDirZero(k);
    CopyFails(v1, k.procs[c].dir, k.procs[c].sz, kmap, o);
    SameOk(v1, o.v);
    GiveStack(o.v, stack);
    var w := Give(o.v, stack);
    forall p
      ensures (p in w.owner <==> p in k.vm.owner) && (p in w.free <==> p in k.vm.free)
      ensures p in k.vm.owner ==> w.owner[p] == k.vm.owner[p] && Content(w, p) == Content(k.vm, p)
    {
      assert p in v1.owner <==> p in k.vm.owner || p == stack;
      FreeRest(k.vm, p);
      FreeRest(w, p);
    }
  }

  lemma ForkOk(k: Kern, c: nat, kmap: seq<KPage>)
    requires KernOk(k) && Used(k, c) && KernelPages(kmap) && ForkIn(k, c, kmap).Ran?
    ensures var k' := ForkIn(k, c, kmap).k; KernOk(k') && Pages(k'.vm) == Pages(k.vm)
  {
    if HasSlot(k) {
      var k', np, o := ForkIn(k, c, kmap).k, FreeSlot(k.procs, 0), ForkCopy(k, c, kmap);
      if o.r != 0 {
        ForkPages(k, c, kmap, o);
        TakeStack(k.vm);
        NoDirZero(k);
        assert SlotOk(k, c);
        SlotAdded(k, k', np, o.r, k.procs[c].sz, k.vm.free[0]);
        FreshDirUnused(k, o.r);
        DirsSet(k.procs, np, k'.procs[np]);
        PageRefs.AttachInv(Refs(k), np, o.r);
      } else {
        ForkFails(k, c, kmap, o);
        SameOk(k.vm, k'.vm);
        PagesOnly(k, k');
      }
    }
  }

  function ForkCopy(k: Kern, c: nat, kmap: seq<KPage>): Outcome
    requires Used(k, c) && HasSlot(k)
  {
    Copy(Take(k.vm, Elsewhere), k.procs[c].dir, k.procs[c].sz, kmap)
  }

  /** The pages changed, but neither the directories in use nor the kernel stacks. */
  ghost predicate Stays(k: Kern, k': Kern) {
    && |k'.procs| == |k.procs| && k'.vm.dirs == k.vm.dirs
    && (forall i :: 0 <= i < |k.procs| ==> k'.procs[i].dir == k.procs[i].dir && k'.procs[i].stack == k.procs[i].stack)
    && (forall i :: Used(k, i) ==> k'.procs[i].sz < KERNBASE)
    && (forall p :: Owns(k'.vm, p, Elsewhere) <==> Owns(k.vm, p, Elsewhere))
  }

  lemma PagesOnlySlots(k: Kern, k': Kern)
    requires SlotsOk(k) && StacksApart(k) && Stays(k, k')
    ensures SlotsOk(k') && StacksApart(k')
  {
    forall i ensures Used(k', i) <==> Used(k, i) {
    }
    forall i: nat | Used(k', i) ensures SlotOk(k', i) { assert SlotOk(k, i); }
    forall i, j | Used(k', i) && Used(k', j) && i != j ensures k'.procs[i].stack != k'.procs[j].stack {
      assert Used(k, i) && Used(k, j);
    }
  }

  lemma PagesOnly(k: Kern, k': Kern)
    requires Matched(k) && Stays(k, k')
    ensures Matched(k')
  {
    PagesOnlySlots(k, k');
    forall d | d in k'.vm.dirs ensures HasDir(k', d) {
      assert HasDir(k, d);
      var i :| 0 <= i < |k.procs| && k.procs[i].dir == d;
      assert k'.procs[i].dir == d;
    }
    forall p | Owns(k'.vm, p, Elsewhere) ensures HasStack(k', p) {
      assert HasStack(k, p);
      var i :| Used(k, i) && k.procs[i].stack == p;
      assert Used(k', i) && k'.procs[i].stack == p;
    }
  }

  // ---- sbrk ----

  lemma ResizedOk(k: Kern, c: nat, w: Vm, r: int)
    requires KernOk(k) && Used(k, c) && Edits(k.vm, w, k.procs[c].dir) && r < KERNBASE
    ensures var k' := Resized(k, c, w, r); KernOk(k') && Pages(k'.vm) == Pages(k.vm)
  {
    var k' := Resized(k, c, w, r);
    assert Dirs(k'.procs) == Dirs(k.procs);
    forall p ensures Owns(w, p, Elsewhere) <==> Owns(k.vm, p, Elsewhere) { StacksKept(k.vm, w, k.procs[c].dir, p); }
    forall i | Used(k, i) ensures k'.procs[i].sz < KERNBASE { assert SlotOk(k, i); }
    PagesOnly(k, k');
  }

  lemma SbrkOk(k: Kern, c: nat, n: int, k': Kern)
    requires KernOk(k) && Used(k, c) && SbrkIn(k, c, n) == Ran(k')
    ensures KernOk(k') && Pages(k'.vm) == Pages(k.vm)
  {
    var p := k.procs[c];
    assert SlotOk(k, c);
    if n > 0 {
      GrowOk(k, c, p.sz + n, Alloc(k.vm, p.dir, p.sz, p.sz + n));
    } else if n < 0 {
      ShrinkOk(k, c, Less(p.sz, n));
    }
  }

  lemma GrowOk(k: Kern, c: nat, newsz: nat, o: Outcome)
    requires KernOk(k) && Used(k, c) && o == Alloc(k.vm, k.procs[c].dir, k.procs[c].sz, newsz) && o.Ret?
    ensures var k' := Resized(k, c, o.v, o.r); KernOk(k') && Pages(k'.vm) == Pages(k.vm)
  {
    assert SlotOk(k, c);
    AllocMeans(k.vm, k.procs[c].dir, k.procs[c].sz, newsz);
    ResizedOk(k, c, o.v, o.r);
  }

  lemma ShrinkOk(k: Kern, c: nat, newsz: nat)
    requires KernOk(k) && Used(k, c)
    ensures KernOk(Shrunk(k, c, newsz)) && Pages(Shrunk(k, c, newsz).vm) == Pages(k.vm)
  {
    var p := k.procs[c];
    assert SlotOk(k, c);
    DeallocCuts(k.vm, p.dir, p.sz, newsz);
    ResizedOk(k, c, Dealloc(k.vm, p.dir, p.sz, newsz), if newsz >= p.sz then p.sz else newsz);
  }

  // ---- wait ----

  /** Slot `z` is given up; its directory stays only if another slot has it. */
  ghost predicate GivesUp(k: Kern, k': Kern, z: nat)
    requires Used(k, z)
  {
    && k'.procs == k.procs[z := Space(0, 0, 0)]
    && k'.vm.dirs == (if HasDir(k', k.procs[z].dir) then k.vm.dirs else k.vm.dirs - {k.procs[z].dir})
    && forall p :: Owns(k'.vm, p, Elsewhere) <==> Owns(k.vm, p, Elsewhere) && p != k.procs[z].stack
  }

  lemma SlotGoneSlots(k: Kern, k': Kern, z: nat)
    requires SlotsOk(k) && StacksApart(k) && Used(k, z) && GivesUp(k, k', z)
    ensures SlotsOk(k') && StacksApart(k')
  {
    forall i ensures Used(k', i) <==> i != z && Used(k, i) {
    }
    forall i: nat | Used(k', i) ensures SlotOk(k', i) { SlotElsewhere(k, k', z, i); }
  }

  lemma SlotGone(k: Kern, k': Kern, z: nat)
    requires Matched(k) && Used(k, z) && GivesUp(k, k', z)
    ensures Matched(k')
  {
    SlotGoneSlots(k, k', z);
    forall e | e in k'.vm.dirs ensures HasDir(k', e) {
      if e != k.procs[z].dir { DirElsewhere(k, k', z, e); }
    }
    forall p | Owns(k'.vm, p, Elsewhere) ensures HasStack(k', p) { StackElsewhere(k, k', z, p); }
  }

  lemma SlotElsewhere(k: Kern, k': Kern, z: nat, i: nat)
    requires Used(k, z) && Used(k, i) && i != z && SlotOk(k, i) && |k'.procs| == |k.procs| && k'.procs[i] == k.procs[i]
    requires k.procs[i].stack != k.procs[z].stack
    requires k'.vm.dirs == if HasDir(k', k.procs[z].dir) then k.vm.dirs else k.vm.dirs - {k.procs[z].dir}
    requires forall p :: Owns(k'.vm, p, Elsewhere) <==> Owns(k.vm, p, Elsewhere) && p != k.procs[z].stack
    ensures SlotOk(k', i)
  {
    assert k'.procs[i].dir == k.procs[i].dir;
  }

  lemma DirElsewhere(k: Kern, k': Kern, z: nat, e: int)
    requires HasDir(k, e) && z < |k.procs| && e != k.procs[z].dir && |k'.procs| == |k.procs|
    requires forall i :: 0 <= i < |k.procs| && i != z ==> k'.procs[i] == k.procs[i]
    ensures HasDir(k', e)
  {
    var i :| 0 <= i < |k.procs| && k.procs[i].dir == e;
    assert k'.procs[i].dir == e;
  }

  lemma StackElsewhere(k: Kern, k': Kern, z: nat, p: int)
    requires HasStack(k, p) && z < |k.procs| && p != k.procs[z].stack && |k'.procs| == |k.procs|
    requires forall i :: 0 <= i < |k.procs| && i != z ==> k'.procs[i] == k.procs[i]
    ensures HasStack(k', p)
  {
    var i :| Used(k, i) && k.procs[i].stack == p;
    assert Used(k', i) && k'.procs[i].stack == p;
  }

  lemma SharerHasDir(k: Kern, d: int)
    ensures PageRefs.All(Refs(k), d) == 0 <==> !HasDir(k, d)
  {
    if HasDir(k, d) {
      var i :| 0 <= i < |k.procs| && k.procs[i].dir == d;
      PageRefs.SharersAny(Dirs(k.procs), d, i, |k.procs|);
    }
    if PageRefs.All(Refs(k), d) >= 1 {
      var i := PageRefs.SomeSharer(Dirs(k.procs), d, |k.procs|);
      assert k.procs[i].dir == d;
    }
  }

  /** The directory of the process in slot `z` is used by no other. */
  predicate LastUser(k: Kern, z: nat)
    requires Used(k, z)
  {
    forall i :: 0 <= i < |k.procs| && i != z ==> k.procs[i].dir != k.procs[z].dir
  }

  /** freevm frees the directory exactly for its last user. */
  lemma DropsLast(k: Kern, z: nat)
    requires KernOk(k) && Used(k, z)
    ensures PageRefs.Inv(Refs(WaitIn(k, z))) && (PageRefs.Dropped(k.tab, k.procs[z].dir).1 <==> LastUser(k, z))
    ensures LastUser(k, z) <==> !HasDir(WaitIn(k, z), k.procs[z].dir)
  {
    var k', d := WaitIn(k, z), k.procs[z].dir;
    DirsSet(k.procs, z, Space(0, 0, 0));
    PageRefs.LastDropFrees(Refs(k), z);
    SharerHasDir(k', d);
    if HasDir(k', d) {
      var i :| 0 <= i < |k'.procs| && k'.procs[i].dir == d;
      assert i != z && k.procs[i].dir == d;
    } else {
      forall i | 0 <= i < |k.procs| && i != z ensures k.procs[i].dir != d { assert k'.procs[i] == k.procs[i]; }
    }
  }

  lemma DirFreed(v: Vm, d: int)
    requires Inv(v) && d in v.dirs && Hands(v) == {}
    ensures var w := FreeDir(v, d);
      && Inv(w) && Hands(w) == {} && Pages(w) == Pages(v)
      && FreeSet(w) == FreeSet(v) + PagesOf(v, d) && w.dirs == v.dirs - {d}
      && forall q :: Owns(w, q, Elsewhere) <==> Owns(v, q, Elsewhere)
  {
    FreeDirGone(v, d);
    FreeDirFrees(v, d);
    forall q ensures Owns(FreeDir(v, d), q, Elsewhere) <==> Owns(v, q, Elsewhere) {
      StacksKept(v, FreeDir(v, d), d, q);
    }
  }

  /** wait gives back the kernel stack, and for the last user of a directory the directory, its tables and its pages;
      no other page becomes free. */
  lemma WaitFrees(k: Kern, z: nat)
    requires KernOk(k) && Used(k, z)
    ensures var v', p := WaitIn(k, z).vm, k.procs[z];
      && Inv(v') && Hands(v') == {} && Pages(v') == Pages(k.vm)
      && FreeSet(v') == FreeSet(k.vm) + {p.stack} + (if LastUser(k, z) then PagesOf(k.vm, p.dir) else {})
      && v'.dirs == (if LastUser(k, z) then k.vm.dirs - {p.dir} else k.vm.dirs)
      && forall q :: Owns(v', q, Elsewhere) <==> Owns(k.vm, q, Elsewhere) && q != p.stack
  {
    var p := k.procs[z];
    var v := Give(k.vm, p.stack);
    assert SlotOk(k, z);
    GiveStack(k.vm, p.stack);
    DropsLast(k, z);
    assert PagesOf(v, p.dir) == PagesOf(k.vm, p.dir);
    if LastUser(k, z) { DirFreed(v, p.dir); }
  }

  lemma WaitOk(k: Kern, z: nat)
    requires KernOk(k) && Used(k, z)
    ensures KernOk(WaitIn(k, z)) && Pages(WaitIn(k, z).vm) == Pages(k.vm)
  {
    WaitFrees(k, z);
    DropsLast(k, z);
    NoDirZero(k);
    SlotGone(k, WaitIn(k, z), z);
  }

  // ---- exec ----

  lemma SetupSized(v: Vm, kmap: seq<KPage>)
    requires Inv(v) && KernelPages(kmap) && Hands(v) == {} && Setup(v, kmap).1 != 0
    ensures Sized(Setup(v, kmap).0, Setup(v, kmap).1, 0) && Making(v, Setup(v, kmap).0, Setup(v, kmap).1)
  {
    SetupFresh(v, kmap);
    SetupMaking(v, kmap);
    assert forall a :: a in Rest(kmap, 0) ==> a >= USER;
  }

  /** The new image is made by work on the new directory alone, whatever it comes to. */
  lemma NewImageGrown(v: Vm, d: int, segs: seq<nat>, check: Check, o: Outcome)
    requires Sized(v, d, 0) && o == NewImage(v, d, segs, check)
    ensures Grown(v, d, o)
  {
    var img, part := Image(v, d, segs), Load(v, d, 0, segs);
    ImageGrown(v, d, segs, img);
    LoadGrown(v, d, 0, segs, part);
    assert GrownOf(v, d, img) && GrownOf(v, d, part);
    GrownFails(v, img.v, d, img.r);
    GrownFails(v, part.v, d, part.r);
  }

  /** The state of the pages when exec is about to commit or to give up. */
  lemma ExecMade(k: Kern, segs: seq<nat>, check: Check, kmap: seq<KPage>, d: int, o: Outcome)
    requires KernOk(k) && KernelPages(kmap) && d == Setup(k.vm, kmap).1 != 0
    requires o == NewImage(Setup(k.vm, kmap).0, d, segs, check)
    ensures o.Ret? && Making(k.vm, o.v, d) && (o.r >= 0 ==> Sized(o.v, d, o.r))
  {
    var v := Setup(k.vm, kmap).0;
    SetupSized(k.vm, kmap);
    NewImageGrown(v, d, segs, check, o);
    assert GrownOf(v, d, o);
    MakingThen(k.vm, v, o.v, d);
  }

  /** Work on a new directory leaves the pages of the others theirs. */
  lemma OldPages(v: Vm, w: Vm, d: int, e: int)
    requires Making(v, w, d) && e in v.dirs
    ensures e in w.dirs && e != d && PagesOf(w, e) == PagesOf(v, e)
  {
    assert MakingOf(v, w, d);
    forall p ensures p in PagesOf(w, e) <==> p in PagesOf(v, e) {
      assert Kept(v, w, d, p);
      assert p in w.owner && !Mine(w, p, d) ==> Owns(v, p, w.owner[p]);
    }
  }

  /** What exec's commit leaves in the pages: the old directory with its tables and pages is freed if and only if no
      other process uses it. */
  lemma ExecFrees(k: Kern, c: nat, w: Vm, d: int, sz: nat)
    requires KernOk(k) && Used(k, c) && Making(k.vm, w, d)
    ensures var v', p := Replaced(k, c, w, d, sz).vm, k.procs[c];
      && Inv(v') && Hands(v') == {} && Pages(v') == Pages(k.vm)
      && FreeSet(v') == FreeSet(w) + (if LastUser(k, c) then PagesOf(k.vm, p.dir) else {})
      && v'.dirs == (if LastUser(k, c) then k.vm.dirs - {p.dir} else k.vm.dirs) + {d}
      && forall q :: Owns(v', q, Elsewhere) <==> Owns(k.vm, q, Elsewhere)
  {
    var p := k.procs[c];
    assert SlotOk(k, c);
    DropsLast(k, c);
    OneForOther(k.vm, w, d, p.dir, LastUser(k, c));
  }

  lemma FreedOther(v: Vm, w: Vm, d: int, e: int)
    requires Making(v, w, d) && e in v.dirs && Inv(w) && Hands(w) == {} && w.dirs == v.dirs + {d}
    requires Pages(w) == Pages(v)
    ensures var v' := FreeDir(w, e);
      && Inv(v') && Hands(v') == {} && Pages(v') == Pages(v) && FreeSet(v') == FreeSet(w) + PagesOf(v, e)
      && v'.dirs == v.dirs - {e} + {d} && forall q :: Owns(v', q, Elsewhere) <==> Owns(w, q, Elsewhere)
  {
    OldPages(v, w, d, e);
    DirFreed(w, e);
    Swapped(v.dirs, d, e);
  }

  lemma Swapped(dirs: set<int>, d: int, e: int)
    requires d != e
    ensures dirs + {d} - {e} == dirs - {e} + {d}
  {
  }

  /** A new directory is made, and an old one freed or not. */
  lemma OneForOther(v: Vm, w: Vm, d: int, e: int, last: bool)
    requires Making(v, w, d) && e in v.dirs
    ensures var v' := if last then FreeDir(w, e) else w;
      && Inv(v') && Hands(v') == {} && Pages(v') == Pages(v)
      && FreeSet(v') == FreeSet(w) + (if last then PagesOf(v, e) else {})
      && v'.dirs == (if last then v.dirs - {e} else v.dirs) + {d}
      && forall q :: Owns(v', q, Elsewhere) <==> Owns(v, q, Elsewhere)
  {
    MadeOne(v, w, d);
    if last { FreedOther(v, w, d, e); }
  }

  /** Slot `c` goes over to directory `d`; its old one stays only if another slot has it. */
  lemma SlotMoved(k: Kern, k': Kern, c: nat, d: int, sz: nat)
    requires Matched(k) && Used(k, c) && k'.procs == k.procs[c := Space(d, sz, k.procs[c].stack)] && d != 0
    requires k'.vm.dirs == (if LastUser(k, c) then k.vm.dirs - {k.procs[c].dir} else k.vm.dirs) + {d}
    requires sz < KERNBASE && forall p :: Owns(k'.vm, p, Elsewhere) <==> Owns(k.vm, p, Elsewhere)
    ensures Matched(k')
  {
    forall i ensures Used(k', i) <==> Used(k, i) {
    }
    assert forall i :: Used(k, i) ==> k'.procs[i].stack == k.procs[i].stack;
    forall i: nat | Used(k', i) ensures SlotOk(k', i) { assert SlotOk(k, i); }
    forall e | e in k'.vm.dirs ensures HasDir(k', e) { StillHasDir(k, k', c, d, e); }
    forall p | Owns(k'.vm, p, Elsewhere) ensures HasStack(k', p) {
      assert HasStack(k, p);
      var i :| Used(k, i) && k.procs[i].stack == p;
      assert Used(k', i) && k'.procs[i].stack == p;
    }
  }

  lemma StillHasDir(k: Kern, k': Kern, c: nat, d: int, e: int)
    requires Used(k, c) && |k'.procs| == |k.procs| && k'.procs[c].dir == d
    requires forall i :: 0 <= i < |k.procs| && i != c ==> k'.procs[i] == k.procs[i]
    requires e == d || (HasDir(k, e) && (LastUser(k, c) ==> e != k.procs[c].dir))
    ensures HasDir(k', e)
  {
    if e == d {
      assert k'.procs[c].dir == e;
    } else if e == k.procs[c].dir {
      var i :| 0 <= i < |k.procs| && i != c && k.procs[i].dir == e;
      assert k'.procs[i].dir == e;
    } else {
      var i :| 0 <= i < |k.procs| && k.procs[i].dir == e;
      assert k'.procs[i].dir == e;
    }
  }

  lemma ReplacedRefs(k: Kern, c: nat, w: Vm, d: int, sz: nat)
    requires KernOk(k) && Used(k, c) && d !in k.vm.dirs && d != 0
    ensures PageRefs.Inv(Refs(Replaced(k, c, w, d, sz)))
  {
    var k1 := WaitIn(k, c);
    DropsLast(k, c);
    forall i | 0 <= i < |k1.procs| ensures k1.procs[i].dir != d {
      if i != c && Used(k, i) { assert SlotOk(k, i); }
    }
    SharerHasDir(k1, d);
    DirsSet(k.procs, c, Space(0, 0, 0));
    DirsSet(k.procs, c, Space(d, sz, k.procs[c].stack));
    PageRefs.AttachInv(Refs(k1), c, d);
    assert Refs(Replaced(k, c, w, d, sz)) == PageRefs.Attach(Refs(k1), c, d);
  }

  lemma ReplacedOk(k: Kern, c: nat, w: Vm, d: int, sz: nat)
    requires KernOk(k) && Used(k, c) && Making(k.vm, w, d) && d != 0 && sz < KERNBASE
    ensures var k' := Replaced(k, c, w, d, sz); KernOk(k') && Pages(k'.vm) == Pages(k.vm)
  {
    assert MakingOf(k.vm, w, d);
    ExecFrees(k, c, w, d, sz);
    SlotMoved(k, Replaced(k, c, w, d, sz), c, d, sz);
    ReplacedRefs(k, c, w, d, sz);
  }

  /** A failed exec leaves every page as it was. */
  lemma ExecFails(k: Kern, c: nat, segs: seq<nat>, check: Check, kmap: seq<KPage>)
    requires KernOk(k) && Used(k, c) && KernelPages(kmap)
    requires var (v, d) := Setup(k.vm, kmap);
      d == 0 || (NewImage(v, d, segs, check).Ret? && NewImage(v, d, segs, check).r < 0)
    ensures var o := ExecIn(k, c, segs, check, kmap);
      o.Ran? && Same(k.vm, o.k.vm) && Inv(o.k.vm) && o.k.procs == k.procs && o.k.tab == k.tab
  {
    NoDirZero(k);
    var (v, d) := Setup(k.vm, kmap);
    if d == 0 {
      SetupFails(k.vm, kmap);
    } else {
      var o := NewImage(v, d, segs, check);
      ExecMade(k, segs, check, kmap, d, o);
      assert MakingOf(k.vm, o.v, d);
      Discarded(k.vm, o.v, d);
    }
  }

  lemma ExecOk(k: Kern, c: nat, segs: seq<nat>, check: Check, kmap: seq<KPage>)
    requires KernOk(k) && Used(k, c) && KernelPages(kmap)
    ensures var o := ExecIn(k, c, segs, check, kmap); o.Ran? && KernOk(o.k) && Pages(o.k.vm) == Pages(k.vm)
  {
    var (v, d) := Setup(k.vm, kmap);
    var o := NewImage(v, d, segs, check);
    if d != 0 { ExecMade(k, segs, check, kmap, d, o); }
    if d != 0 && o.r >= 0 {
      assert SizedOf(o.v, d, o.r);
      ReplacedOk(k, c, o.v, d, o.r);
    } else {
      ExecFails(k, c, segs, check, kmap);
      var k' := ExecIn(k, c, segs, check, kmap).k;
      SameOk(k.vm, k'.vm);
      PagesOnly(k, k');
    }
  }

  // ---- Runs ----

  lemma StepOk(k: Kern, e: Event, kmap: seq<KPage>)
    requires KernOk(k) && KernelPages(kmap) && Step(k, e, kmap).Ran?
    ensures var k' := Step(k, e, kmap).k; KernOk(k') && Pages(k'.vm) == Pages(k.vm)
  {
    match e
    case Fork(c) => if Used(k, c) { ForkOk(k, c, kmap); }
    case Clone(c) => if Used(k, c) { CloneOk(k, c); }
    case Sbrk(c, n) => if Used(k, c) { SbrkOk(k, c, n, SbrkIn(k, c, n).k); }
    case Exec(c, segs, check) => if Used(k, c) { ExecOk(k, c, segs, check, kmap); }
    case Wait(z) => if Used(k, z) { WaitOk(k, z); }
  }

  /** After any run every page is free or in one use, reference counts count the users of shared directories, and no
      page is lost. */
  lemma {:induction false} RunOk(k: Kern, es: seq<Event>, kmap: seq<KPage>, k': Kern)
    requires KernOk(k) && KernelPages(kmap) && Run(k, es, kmap) == Ran(k')
    ensures KernOk(k') && Pages(k'.vm) == Pages(k.vm)
    decreases |es|
  {
    if es != [] {
      StepOk(k, es[0], kmap);
      RunOk(Step(k, es[0], kmap).k, es[1..], kmap, k');
    }
  }
}
