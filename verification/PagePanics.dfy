/** Exactly when fork, sbrk and exec succeed, fail and panic. */
module PagePanics {
  import opened PagePool
  import opened PageOps
  import opened PageNeeds
  import opened PageSizes
  import opened PageExec
  import opened PageSpaces
  import opened PageRuns

  // ---- One call ----

  /** The calls that panic, in terms of the state before them. */
  predicate SbrkPanics(k: Kern, c: nat, n: int)
    requires Used(k, c) && n > 0
  {
    var p := k.procs[c];
    var m := First(k.vm, p.dir, RoundUp(p.sz), RoundUp(p.sz + n), true);
    p.sz + n < KERNBASE && m < RoundUp(p.sz + n) && Need(Tables(k.vm, p.dir), RoundUp(p.sz), m) < |k.vm.free|
  }

  predicate ForkPanics(k: Kern, c: nat, kmap: seq<KPage>)
    requires Used(k, c)
  {
    var p := k.procs[c];
    var m := First(k.vm, p.dir, 0, RoundUp(p.sz), false);
    FreeSlot(k.procs, 0) < |k.procs| && m < RoundUp(p.sz) && 1 + CopyNeeds(m, kmap) <= |k.vm.free|
  }

  /** sbrk by a positive amount grows the process exactly if nothing in the range is mapped and there are enough free
      pages; it panics exactly if the free pages suffice to reach a mapped page, and one more. */
  lemma SbrkIff(k: Kern, c: nat, n: int, o: Result)
    requires KernOk(k) && Used(k, c) && n > 0 && k.procs[c].sz + n < KERNBASE && o == SbrkIn(k, c, n)
    ensures var p := k.procs[c];
      var lo, hi := RoundUp(p.sz), RoundUp(p.sz + n);
      var m := First(k.vm, p.dir, lo, hi, true);
      && (o.Ran? && o.k.procs[c].sz == p.sz + n <==> m == hi && Need(Tables(k.vm, p.dir), lo, hi) <= |k.vm.free|)
      && (o.Remapped? <==> SbrkPanics(k, c, n)) && !o.Missing?
  {
    var p := k.procs[c];
    var one := Alloc(k.vm, p.dir, p.sz, p.sz + n);
    assert SlotOk(k, c);
    AllocIff(k.vm, p.dir, p.sz, p.sz + n);
    AllocAnswers(k.vm, p.dir, p.sz, p.sz + n, one);
    RegrownSize(k, c, p.sz + n, one, o);
  }

  /** The size and the panic after allocuvm's answer */
  lemma RegrownSize(k: Kern, c: nat, newsz: nat, one: Outcome, o: Result)
    requires Used(k, c) && o == Regrown(k, c, one) && newsz > k.procs[c].sz && !one.AbsentPanic?
    requires one.Ret? ==> one.r == newsz || one.r == 0
    ensures o.Ran? && o.k.procs[c].sz == newsz <==> one.Ret? && one.r == newsz
    ensures (o.Remapped? <==> one.RemapPanic?) && !o.Missing?
  {
  }

  lemma SbrkNever(k: Kern, c: nat, n: int)
    requires KernOk(k) && Used(k, c) && (n <= 0 || k.procs[c].sz + n >= KERNBASE)
    ensures SbrkIn(k, c, n).Ran? && (n >= 0 ==> SbrkIn(k, c, n) == Ran(k))
  {
    assert SlotOk(k, c);
    if n > 0 { AllocMeans(k.vm, k.procs[c].dir, k.procs[c].sz, k.procs[c].sz + n); }
  }

  /** fork makes a child exactly if there is a slot, every page below the size is mapped and there are enough free
      pages, the kernel stack among them; it panics exactly if a page is missing and the free pages suffice to reach
      it. */
  lemma ForkIff(k: Kern, c: nat, kmap: seq<KPage>, o: Result)
    requires KernOk(k) && Used(k, c) && KernelPages(kmap) && o == ForkIn(k, c, kmap)
    ensures var p, np := k.procs[c], FreeSlot(k.procs, 0);
      var m := First(k.vm, p.dir, 0, RoundUp(p.sz), false);
      && (o.Ran? && np < |k.procs| && Used(o.k, np) <==>
            np < |k.procs| && m == RoundUp(p.sz) && 1 + CopyNeeds(m, kmap) <= |k.vm.free|)
      && (o.Missing? <==> np < |k.procs| && m < RoundUp(p.sz) && 1 + CopyNeeds(m, kmap) <= |k.vm.free|) && !o.Remapped?
  {
    if HasSlot(k) {
      var p, v1 := k.procs[c], Take(k.vm, Elsewhere);
      assert SlotOk(k, c);
      TakeStack(k.vm);
      NoDirZero(k);
      CopyIff(v1, p.dir, p.sz, kmap, ForkCopy(k, c, kmap));
      OneFirst(k.vm, p.dir, 0, RoundUp(p.sz), false, First(v1, p.dir, 0, RoundUp(p.sz), false));
    }
  }

  /** exec of a file and arguments that pass its checks replaces the address space exactly if the segments are in order
      and end low enough, and there are free pages for the new directory, the segments and the stack; the size is then
      two pages above the segments. */
  lemma ExecIff(k: Kern, c: nat, segs: seq<nat>, kmap: seq<KPage>, o: Result)
    requires KernOk(k) && Used(k, c) && KernelPages(kmap) && o == ExecIn(k, c, segs, Passes, kmap)
    ensures o.Ran? && o.k.procs[c].dir != 0
    ensures var top := RoundUp(EndOf(0, segs)) + 2;
      && (o.k.procs[c].dir != k.procs[c].dir <==> SegsOk(0, segs) && top < USER && CopyNeeds(top, kmap) <= |k.vm.free|)
      && (o.k.procs[c].dir != k.procs[c].dir ==> o.k.procs[c].sz == top * PGSIZE)
      && (o.k.procs[c].dir == k.procs[c].dir ==> o.k.procs == k.procs)
  {
    NoDirZero(k);
    SetupOkIff(k.vm, kmap);
    var (v, d) := Setup(k.vm, kmap);
    if d != 0 {
      assert SlotOk(k, c);
      NewImageIff(k, segs, kmap, d, Image(v, d, segs));
    }
  }

  lemma NewImageIff(k: Kern, segs: seq<nat>, kmap: seq<KPage>, d: int, img: Outcome)
    requires KernOk(k) && KernelPages(kmap) && 0 !in k.vm.free && d == Setup(k.vm, kmap).1 != 0
    requires img == Image(Setup(k.vm, kmap).0, d, segs)
    ensures d !in k.vm.dirs && img.Ret?
    ensures var top := RoundUp(EndOf(0, segs)) + 2;
      img.r == if SegsOk(0, segs) && top < USER && CopyNeeds(top, kmap) <= |k.vm.free| then top * PGSIZE else -1
  {
    var v, top := Setup(k.vm, kmap).0, RoundUp(EndOf(0, segs)) + 2;
    SetupOkIff(k.vm, kmap);
    SetupSized(k.vm, kmap);
    NewImageGrown(v, d, segs, Passes, img);
    GrownSized(v, d, img);
    ImageIff(v, d, segs, img);
    if top < USER { ApartTables(kmap, top); }
    MadeOne(k.vm, v, d);
  }

  lemma SbrkPanicsIff(k: Kern, c: nat, n: int, o: Result)
    requires KernOk(k) && Used(k, c) && o == SbrkIn(k, c, n)
    ensures (o.Remapped? <==> n > 0 && SbrkPanics(k, c, n)) && !o.Missing?
  {
    if n > 0 && k.procs[c].sz + n < KERNBASE {
      SbrkIff(k, c, n, o);
    } else {
      SbrkNever(k, c, n);
    }
  }

  lemma ForkPanicsIff(k: Kern, c: nat, kmap: seq<KPage>, o: Result)
    requires KernOk(k) && Used(k, c) && KernelPages(kmap) && o == ForkIn(k, c, kmap)
    ensures (o.Missing? <==> ForkPanics(k, c, kmap)) && !o.Remapped?
  {
    ForkIff(k, c, kmap, o);
  }

  lemma StepPanicsIff(k: Kern, e: Event, kmap: seq<KPage>, o: Result)
    requires KernOk(k) && KernelPages(kmap) && o == Step(k, e, kmap)
    ensures o.Remapped? <==> e.Sbrk? && Used(k, e.c) && e.n > 0 && SbrkPanics(k, e.c, e.n)
    ensures o.Missing? <==> e.Fork? && Used(k, e.c) && ForkPanics(k, e.c, kmap)
  {
    match e
    case Fork(c) => if Used(k, c) { ForkPanicsIff(k, c, kmap, o); }
    case Clone(c) =>
    case Sbrk(c, n) => if Used(k, c) { SbrkPanicsIff(k, c, n, o); }
    case Exec(c, segs, check) => if Used(k, c) { ExecOk(k, c, segs, check, kmap); }
    case Wait(z) =>
  }
}
