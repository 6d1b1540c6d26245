/** Which calls can lead to a panic: a process whose directory nobody shares, and which has exactly the pages of its
    size, is safe from it whatever the others do. */
module PageOwn {
  import opened PagePool
  import opened PageOps
  import opened PageNeeds
  import opened PageSizes
  import opened PageExec
  import opened PageSpaces
  import opened PageRuns
  import opened PagePanics

  /** Nobody shares the directory of process `i`, and it has exactly the pages that its size says. */
  ghost predicate Own(k: Kern, i: nat) { Used(k, i) && forall j: nat | j == i :: OwnOf(k, j) }

  ghost predicate OwnOf(k: Kern, i: nat) {
    Used(k, i) && LastUser(k, i) && Maps(k.vm, k.procs[i].dir, k.procs[i].sz)
  }

  /** The process that makes the call, or is waited for. */
  function By(e: Event): nat { if e.Wait? then e.z else e.c }

  /** The calls after which a process still has its own pages: all but its own clone that finds a slot and a stack, its
      own shrink to nothing, which frees the pages but leaves the size, and the wait for it. */
  predicate Keeps(k: Kern, e: Event, i: nat)
    requires Used(k, i)
  {
    match e
    case Clone(c) => c != i || !HasSlot(k)
    case Sbrk(c, n) => c != i || n >= 0 || k.procs[i].sz == 0 || Less(k.procs[i].sz, n) != 0
    case Wait(z) => z != i
    case _ => true
  }

  // ---- The others ----

  lemma OwnKept(k: Kern, k': Kern, i: nat)
    requires Own(k, i) && i < |k'.procs| && k'.procs[i] == k.procs[i] && SameIn(k.vm, k'.vm, k.procs[i].dir)
    requires forall j :: 0 <= j < |k'.procs| && j != i ==> k'.procs[j].dir != k.procs[i].dir
    ensures Own(k', i)
  {
    assert OwnOf(k, i);
    MapsSame(k.vm, k'.vm, k.procs[i].dir, k.procs[i].sz);
  }

  lemma ChildMaps(k: Kern, c: nat, kmap: seq<KPage>, o: Outcome)
    requires KernOk(k) && Used(k, c) && KernelPages(kmap) && HasSlot(k) && o == ForkCopy(k, c, kmap) && o.Ret?
    requires o.r != 0
    ensures o.r !in k.vm.dirs && Maps(o.v, o.r, k.procs[c].sz) && forall e :: e != o.r ==> SameIn(k.vm, o.v, e)
  {
    var p, v1 := k.procs[c], Take(k.vm, Elsewhere);
    assert SlotOk(k, c);
    TakeStack(k.vm);
    CopyMeans(v1, p.dir, p.sz, kmap, o);
    CopyKeys(v1, p.dir, p.sz, kmap, o);
    assert MakingOf(v1, o.v, o.r);
    forall e | e != o.r ensures SameIn(k.vm, o.v, e) { ElsewhereSame(v1, o.v, o.r, e); }
    assert forall a :: a in Rest(kmap, 0) ==> a >= USER;
  }

  lemma OwnFork(k: Kern, c: nat, kmap: seq<KPage>, i: nat, k': Kern)
    requires KernOk(k) && KernelPages(kmap) && Used(k, c) && Own(k, i) && ForkIn(k, c, kmap) == Ran(k')
    ensures Own(k', i)
  {
    assert OwnOf(k, i);
    if HasSlot(k) {
      var o := ForkCopy(k, c, kmap);
      if o.r == 0 {
        ForkFails(k, c, kmap, o);
      } else {
        assert SlotOk(k, i);
        ChildMaps(k, c, kmap, o);
      }
      OwnKept(k, k', i);
    }
  }

  /** The child has its own pages from the start. */
  lemma OwnChild(k: Kern, c: nat, kmap: seq<KPage>, k': Kern)
    requires KernOk(k) && KernelPages(kmap) && Used(k, c) && ForkIn(k, c, kmap) == Ran(k')
    ensures forall i: nat :: Used(k', i) && !Used(k, i) ==> Own(k', i)
  {
    if HasSlot(k) && ForkCopy(k, c, kmap).r != 0 {
      var o := ForkCopy(k, c, kmap);
      ChildMaps(k, c, kmap, o);
      forall j | Used(k, j) ensures k.procs[j].dir != o.r { assert SlotOk(k, j); }
      assert o.r != 0;
    }
  }

  lemma OwnClone(k: Kern, c: nat, i: nat)
    requires KernOk(k) && Used(k, c) && Own(k, i)
    ensures Own(CloneIn(k, c), i) <==> Keeps(k, Clone(c), i)
  {
    assert OwnOf(k, i);
    var k', np := CloneIn(k, c), FreeSlot(k.procs, 0);
    if HasSlot(k) {
      if c == i {
        assert k'.procs[np].dir == k'.procs[i].dir && np != i;
        assert !OwnOf(k', i);
      } else {
        OwnKept(k, k', i);
      }
    }
  }

  lemma WaitSame(k: Kern, z: nat, e: int)
    requires KernOk(k) && Used(k, z) && e != k.procs[z].dir
    ensures SameIn(k.vm, WaitIn(k, z).vm, e)
  {
    var p := k.procs[z];
    var v := Give(k.vm, p.stack);
    assert SlotOk(k, z);
    GiveStack(k.vm, p.stack);
    DropsLast(k, z);
    if LastUser(k, z) {
      FreeDirGone(v, p.dir);
      ElsewhereSame(v, FreeDir(v, p.dir), p.dir, e);
    }
  }

  lemma OwnWait(k: Kern, z: nat, i: nat)
    requires KernOk(k) && Used(k, z) && Own(k, i)
    ensures Own(WaitIn(k, z), i) <==> z != i
  {
    assert OwnOf(k, i);
    if z != i {
      WaitSame(k, z, k.procs[i].dir);
      OwnKept(k, WaitIn(k, z), i);
    }
  }

  /** Another process grows or shrinks: its directory is a different one. */
  lemma OwnSbrkOther(k: Kern, c: nat, n: int, i: nat, k': Kern)
    requires KernOk(k) && Used(k, c) && Own(k, i) && c != i && SbrkIn(k, c, n) == Ran(k')
    ensures Own(k', i)
  {
    assert OwnOf(k, i);
    var p := k.procs[c];
    assert SlotOk(k, c);
    if n > 0 {
      AllocOutside(k.vm, p.dir, p.sz, p.sz + n, Alloc(k.vm, p.dir, p.sz, p.sz + n));
      ElsewhereSame(k.vm, k'.vm, p.dir, k.procs[i].dir);
    } else if n < 0 {
      DeallocCuts(k.vm, p.dir, p.sz, Less(p.sz, n));
      ElsewhereSame(k.vm, k'.vm, p.dir, k.procs[i].dir);
    }
    OwnKept(k, k', i);
  }

  // ---- Its own calls ----

  /** Its own fork does not panic. */
  lemma ForkRuns(k: Kern, c: nat, kmap: seq<KPage>)
    requires KernOk(k) && KernelPages(kmap) && Own(k, c)
    ensures ForkIn(k, c, kmap).Ran?
  {
    assert OwnOf(k, c);
    var p := k.procs[c];
    assert SlotOk(k, c);
    OneFirst(k.vm, p.dir, 0, RoundUp(p.sz), false, RoundUp(p.sz));
    ForkPanicsIff(k, c, kmap, ForkIn(k, c, kmap));
  }

  lemma ResizedOwn(k: Kern, c: nat, w: Vm, r: int)
    requires Own(k, c) && Maps(w, k.procs[c].dir, NewSize(r, k.procs[c].sz))
    ensures Own(Resized(k, c, w, r), c)
  {
    assert OwnOf(k, c);
  }

  lemma GrowOwn(k: Kern, c: nat, newsz: nat)
    requires KernOk(k) && Own(k, c) && k.procs[c].sz < newsz < KERNBASE
    ensures var o := Regrown(k, c, Alloc(k.vm, k.procs[c].dir, k.procs[c].sz, newsz)); o.Ran? && Own(o.k, c)
  {
    assert OwnOf(k, c);
    var p := k.procs[c];
    var one := Alloc(k.vm, p.dir, p.sz, newsz);
    assert SlotOk(k, c);
    AllocTidy(k.vm, p.dir, p.sz, newsz, one);
    ResizedOwn(k, c, one.v, one.r);
  }

  lemma ShrinkOwn(k: Kern, c: nat, newsz: nat)
    requires KernOk(k) && Own(k, c) && (k.procs[c].sz == 0 || newsz != 0)
    ensures Own(Shrunk(k, c, newsz), c)
  {
    assert OwnOf(k, c);
    var p := k.procs[c];
    assert SlotOk(k, c);
    DeallocCuts(k.vm, p.dir, p.sz, newsz);
    var w := Dealloc(k.vm, p.dir, p.sz, newsz);
    if newsz < p.sz { ShrinkMaps(k.vm, w, p.dir, p.sz, newsz); }
    ResizedOwn(k, c, w, if newsz >= p.sz then p.sz else newsz);
  }

  /** A shrink to nothing: the pages are gone and the size stays. */
  lemma ShrinkToNothing(k: Kern, c: nat)
    requires KernOk(k) && Used(k, c) && 0 < k.procs[c].sz
    ensures var k' := Shrunk(k, c, 0); k'.procs == k.procs && (k.procs[c].dir, 0) !in k'.vm.pte && !Own(k', c)
  {
    var p, k' := k.procs[c], Shrunk(k, c, 0);
    assert SlotOk(k, c);
    DeallocCuts(k.vm, p.dir, p.sz, 0);
    assert RoundUp(p.sz) > 0;
    assert Maps(k'.vm, p.dir, p.sz) ==> (p.dir, 0) in k'.vm.pte;
    assert !OwnOf(k', c);
  }

  lemma OwnShrink(k: Kern, c: nat, newsz: nat)
    requires KernOk(k) && Own(k, c)
    ensures Own(Shrunk(k, c, newsz), c) <==> k.procs[c].sz == 0 || newsz != 0
  {
    if k.procs[c].sz == 0 || newsz != 0 { ShrinkOwn(k, c, newsz); } else { ShrinkToNothing(k, c); }
  }

  lemma OwnUp(k: Kern, c: nat, n: nat, o: Result)
    requires KernOk(k) && Own(k, c) && o == SbrkIn(k, c, n)
    ensures o.Ran? && Own(o.k, c)
  {
    if n > 0 && k.procs[c].sz + n < KERNBASE { GrowOwn(k, c, k.procs[c].sz + n); } else { SbrkNever(k, c, n); }
  }

  lemma OwnDown(k: Kern, c: nat, n: int, o: Result)
    requires KernOk(k) && Own(k, c) && n < 0 && o == SbrkIn(k, c, n)
    ensures o.Ran? && (Own(o.k, c) <==> k.procs[c].sz == 0 || Less(k.procs[c].sz, n) != 0)
  {
    OwnShrink(k, c, Less(k.procs[c].sz, n));
  }

  lemma OwnSbrk(k: Kern, c: nat, n: int, o: Result)
    requires KernOk(k) && Own(k, c) && o == SbrkIn(k, c, n)
    ensures o.Ran? && (Own(o.k, c) <==> Keeps(k, Sbrk(c, n), c))
  {
    if n < 0 { OwnDown(k, c, n, o); } else { OwnUp(k, c, n, o); }
  }

  // ---- exec ----

  lemma ReplacedSame(k: Kern, c: nat, w: Vm, d: int, sz: nat, e: int)
    requires KernOk(k) && Used(k, c) && Making(k.vm, w, d) && e != k.procs[c].dir
    ensures e != d ==> SameIn(k.vm, Replaced(k, c, w, d, sz).vm, e)
    ensures SameIn(w, Replaced(k, c, w, d, sz).vm, e)
  {
    var p := k.procs[c];
    assert SlotOk(k, c);
    MadeSame(k.vm, w, d, e);
    OldPages(k.vm, w, d, p.dir);
    MadeOne(k.vm, w, d);
    FreeSame(w, p.dir, e);
  }

  lemma MadeSame(v: Vm, w: Vm, d: int, e: int)
    requires Making(v, w, d)
    ensures e != d ==> SameIn(v, w, e)
  {
    assert MakingOf(v, w, d);
    if e != d { ElsewhereSame(v, w, d, e); }
  }

  lemma FreeSame(w: Vm, d: int, e: int)
    requires Inv(w) && d in w.dirs && e != d
    ensures SameIn(w, FreeDir(w, d), e)
  {
    FreeDirGone(w, d);
    ElsewhereSame(w, FreeDir(w, d), d, e);
  }

  /** After an exec that goes through a process has its own pages, whatever it shared before. */
  lemma ReplacedOwn(k: Kern, c: nat, w: Vm, d: int, sz: nat)
    requires KernOk(k) && Used(k, c) && Making(k.vm, w, d) && Sized(w, d, sz) && d != 0
    ensures Own(Replaced(k, c, w, d, sz), c)
  {
    assert SizedOf(w, d, sz) && SlotOk(k, c);
    MadeOne(k.vm, w, d);
    ReplacedSame(k, c, w, d, sz, d);
    MapsSame(w, Replaced(k, c, w, d, sz).vm, d, sz);
    forall j | Used(k, j) ensures k.procs[j].dir != d { assert SlotOk(k, j); }
  }

  lemma ReplacedOther(k: Kern, c: nat, w: Vm, d: int, sz: nat, i: nat)
    requires KernOk(k) && Used(k, c) && Making(k.vm, w, d) && c != i && Own(k, i)
    ensures Own(Replaced(k, c, w, d, sz), i)
  {
    assert OwnOf(k, i);
    assert SlotOk(k, i);
    MadeOne(k.vm, w, d);
    ReplacedSame(k, c, w, d, sz, k.procs[i].dir);
    OwnKept(k, Replaced(k, c, w, d, sz), i);
  }

  lemma OwnExec(k: Kern, c: nat, segs: seq<nat>, check: Check, kmap: seq<KPage>, i: nat, k': Kern)
    requires KernOk(k) && KernelPages(kmap) && Used(k, c) && ExecIn(k, c, segs, check, kmap) == Ran(k')
    ensures Own(k, i) ==> Own(k', i)
    ensures k'.procs != k.procs ==> Own(k', c)
  {
    var (v, d) := Setup(k.vm, kmap);
    var o := NewImage(v, d, segs, check);
    if d != 0 { ExecMade(k, segs, check, kmap, d, o); }
    if d != 0 && o.r >= 0 {
      ReplacedOwn(k, c, o.v, d, o.r);
      if i != c && Own(k, i) { ReplacedOther(k, c, o.v, d, o.r, i); }
    } else {
      ExecFails(k, c, segs, check, kmap);
      if Own(k, i) {
        assert OwnOf(k, i);
        OwnKept(k, k', i);
      }
    }
  }

  // ---- Runs ----

  /** A process with its own pages does not panic, and has them after a call exactly if that is one that keeps them.
      Nothing is asked of the others. */
  lemma OwnStep(k: Kern, e: Event, kmap: seq<KPage>, i: nat, o: Result)
    requires KernOk(k) && KernelPages(kmap) && Own(k, i) && o == Step(k, e, kmap)
    ensures By(e) == i ==> o.Ran?
    ensures o.Ran? ==> (Own(o.k, i) <==> Keeps(k, e, i))
  {
    if Used(k, By(e)) && o.Ran? { OwnRan(k, e, kmap, i, o.k); }
    if By(e) == i {
      match e
      case Fork(c) => ForkRuns(k, c, kmap);
      case Clone(c) =>
      case Sbrk(c, n) => OwnSbrk(k, c, n, SbrkIn(k, c, n));
      case Exec(c, segs, check) => ExecOk(k, c, segs, check, kmap);
      case Wait(z) =>
    }
  }

  lemma OwnRan(k: Kern, e: Event, kmap: seq<KPage>, i: nat, k': Kern)
    requires KernOk(k) && KernelPages(kmap) && Own(k, i) && Used(k, By(e)) && Step(k, e, kmap) == Ran(k')
    ensures Own(k', i) <==> Keeps(k, e, i)
  {
    match e
    case Fork(c) => OwnFork(k, c, kmap, i, k');
    case Clone(c) => OwnClone(k, c, i);
    case Sbrk(c, n) => if c == i { OwnSbrk(k, c, n, SbrkIn(k, c, n)); } else { OwnSbrkOther(k, c, n, i, k'); }
    case Exec(c, segs, check) => OwnExec(k, c, segs, check, kmap, i, k');
    case Wait(z) => OwnWait(k, z, i);
  }

  /** All calls of process `i` in the run keep it safe; those of the others are not restricted. */
  predicate KeepsAll(k: Kern, es: seq<Event>, kmap: seq<KPage>, i: nat)
    decreases |es|
  {
    es == [] || (Used(k, i) && Keeps(k, es[0], i) &&
      (Step(k, es[0], kmap).Ran? ==> KeepsAll(Step(k, es[0], kmap).k, es[1..], kmap, i)))
  }

  /** How many calls of the run return. */
  function Returned(k: Kern, es: seq<Event>, kmap: seq<KPage>): (n: nat)
    ensures n <= |es| && (n == |es| <==> Run(k, es, kmap).Ran?)
    decreases |es|
  {
    if es == [] || !Step(k, es[0], kmap).Ran? then 0 else 1 + Returned(Step(k, es[0], kmap).k, es[1..], kmap)
  }

  /** Over a run: such a process never panics, and if the run ends in a panic then in a call of another one. */
  lemma {:induction false} OwnRun(k: Kern, es: seq<Event>, kmap: seq<KPage>, i: nat, o: Result, n: nat)
    requires KernOk(k) && KernelPages(kmap) && Own(k, i) && KeepsAll(k, es, kmap, i)
    requires o == Run(k, es, kmap) && n == Returned(k, es, kmap)
    ensures (o.Ran? ==> Own(o.k, i)) && (n < |es| ==> By(es[n]) != i)
    decreases |es|
  {
    if es != [] {
      var one := Step(k, es[0], kmap);
      OwnStep(k, es[0], kmap, i, one);
      if one.Ran? {
        StepOk(k, es[0], kmap);
        OwnRun(one.k, es[1..], kmap, i, o, n - 1);
      }
    }
  }

  // ---- Where no call can panic ----

  /** No directory is shared, and every process has exactly the pages that its size says. */
  ghost predicate Tidy(k: Kern) { forall i: nat :: Used(k, i) ==> Own(k, i) }

  /** The calls that leave a tidy state tidy: all but a clone that finds a slot and a stack, and a shrink to nothing. */
  predicate KeepsTidy(k: Kern, e: Event) { e.Wait? || !Used(k, e.c) || Keeps(k, e, e.c) }

  /** A used slot that was not used before the call is a child of fork or clone. */
  lemma NewSlots(k: Kern, e: Event, kmap: seq<KPage>, k': Kern, i: nat)
    requires KernOk(k) && KernelPages(kmap) && KeepsTidy(k, e) && Step(k, e, kmap) == Ran(k') && Used(k', i)
    requires !Used(k, i)
    ensures Own(k', i)
  {
    match e
    case Fork(c) => OwnChild(k, c, kmap, k');
    case Clone(c) =>
    case Sbrk(c, n) =>
    case Exec(c, segs, check) => if Used(k, c) { OwnExec(k, c, segs, check, kmap, i, k'); }
    case Wait(z) =>
  }

  /** In a tidy state no call panics, and the next state is tidy exactly unless the call is one of the two. */
  lemma TidyStep(k: Kern, e: Event, kmap: seq<KPage>, o: Result)
    requires KernOk(k) && Tidy(k) && KernelPages(kmap) && o == Step(k, e, kmap)
    ensures o.Ran? && (Tidy(o.k) <==> KeepsTidy(k, e))
  {
    if Used(k, By(e)) { OwnStep(k, e, kmap, By(e), o); }
    if KeepsTidy(k, e) {
      forall i: nat | Used(o.k, i) ensures Own(o.k, i) {
        if Used(k, i) { OwnStep(k, e, kmap, i, o); } else { NewSlots(k, e, kmap, o.k, i); }
      }
    } else {
      StillUsed(k, e, kmap, o.k);
    }
  }

  lemma StillUsed(k: Kern, e: Event, kmap: seq<KPage>, k': Kern)
    requires !KeepsTidy(k, e) && Step(k, e, kmap) == Ran(k')
    ensures Used(k', e.c)
  {
  }

  /** No call of the run shares a directory or shrinks a process to nothing. */
  predicate KeepsTidyAll(k: Kern, es: seq<Event>, kmap: seq<KPage>)
    decreases |es|
  {
    es == [] || (KeepsTidy(k, es[0]) &&
      (Step(k, es[0], kmap).Ran? ==> KeepsTidyAll(Step(k, es[0], kmap).k, es[1..], kmap)))
  }

  /** Without clone and without a shrink to nothing no run ever panics. */
  lemma {:induction false} TidyRun(k: Kern, es: seq<Event>, kmap: seq<KPage>)
    requires KernOk(k) && Tidy(k) && KernelPages(kmap) && KeepsTidyAll(k, es, kmap)
    ensures Run(k, es, kmap).Ran? && Tidy(Run(k, es, kmap).k)
    decreases |es|
  {
    if es != [] {
      var o := Step(k, es[0], kmap);
      TidyStep(k, es[0], kmap, o);
      StepOk(k, es[0], kmap);
      TidyRun(o.k, es[1..], kmap);
    }
  }
}
