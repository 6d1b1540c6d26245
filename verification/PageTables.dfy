/** vm.c and the address-space parts of proc.c in place; PageOps, PageRefs and PageSpaces say what the calls compute. */
module PageTables {
  import opened PagePool
  import opened PageOps
  import opened PageExec
  import PageRefs
  import opened PageSpaces
  import opened PageRuns

  /** No entry of the reference table in use is for a page that is free. */
  predicate NoStale(free: seq<int>, tab: seq<PageRefs.Ref>) {
    forall i, j :: 0 <= i < |tab| && 0 <= j < |free| && tab[i].count != -1 ==> tab[i].pgdir != free[j]
  }

  /** So it is in every state of a run. */
  lemma NeverStale(k: Kern)
    requires KernOk(k)
    ensures NoStale(k.vm.free, k.tab)
    ensures forall i :: 0 <= i < |k.tab| && k.tab[i].count != -1 ==> k.tab[i].count >= 1
  {
    forall i, j | 0 <= i < |k.tab| && 0 <= j < |k.vm.free| && k.tab[i].count != -1
      ensures k.tab[i].pgdir != k.vm.free[j]
    {
      SharerHasDir(k, k.tab[i].pgdir);
      var s :| 0 <= s < |k.procs| && k.procs[s].dir == k.tab[i].pgdir;
      assert Used(k, s) && SlotOk(k, s);
    }
  }

  lemma NotLive(free: seq<int>, tab: seq<PageRefs.Ref>, d: int)
    requires NoStale(free, tab) && d in free
    ensures PageRefs.Locate(tab, d, 0) == |tab|
  {
    var i := PageRefs.Locate(tab, d, 0);
    assert !(i < |tab| && PageRefs.Live(tab, i, d));
  }

  class Memory {
    var vm: Vm
    var tab: seq<PageRefs.Ref>
    var procs: seq<Space>

    function Value(): Kern
      reads this
    {
      Kern(vm, tab, procs)
    }

    // ---- kalloc, kfree, walkpgdir, mappages ----

    /** kalloc and filling the page with `c`; false when the free list is empty */
    method Kalloc(c: int) returns (ok: bool, p: int)
      modifies this`vm
      ensures ok == (old(vm).free != [])
      ensures !ok ==> vm == old(vm) && p == 0
      ensures ok ==> p == old(vm).free[0] && vm == Filled(Take(old(vm), InHand), p, c)
    {
      if vm.free == [] { return false, 0; }
      p := vm.free[0];
      vm := Filled(Take(vm, InHand), p, c);
      ok := true;
    }

    /** walkpgdir with `alloc` set */
    method Walk(d: int, a: nat) returns (ok: bool)
      modifies this`vm
      ensures ok == CanWalk(old(vm), d, a)
      ensures vm == if ok then Walked(old(vm), d, a) else old(vm)
    {
      if (d, a / NPDE) in vm.pde { return true; }
      if vm.free == [] { return false; }
      vm := NewTable(vm, d, a / NPDE);
      ok := true;
    }

    /** mappages for one page at entry `a`: -1 without memory for a table, panic at a present entry */
    method MapPage(d: int, a: nat, e: Pte) returns (ok: bool, panic: bool)
      modifies this`vm
      ensures panic <==> CanWalk(old(vm), d, a) && (d, a) in old(vm).pte
      ensures ok == (CanWalk(old(vm), d, a) && !panic)
      ensures !panic && !ok ==> vm == old(vm)
      ensures !panic && ok ==> var w := Walked(old(vm), d, a);
        vm == if e.own then MapUser(w, d, a, e.page, e.flags) else w.(pte := w.pte[(d, a) := e])
    {
      panic := false;
      ok := Walk(d, a);
      if !ok { return; }
      if (d, a) in vm.pte { return false, true; }
      vm := vm.(pte := vm.pte[(d, a) := e]);
      if e.own { vm := vm.(owner := vm.owner[e.page := DataOf(d, a)]); }
    }

    // ---- Reference counts ----

    /** locate_uvmrefcount */
    method LocateRef(d: int) returns (i: nat)
      ensures i == PageRefs.Locate(tab, d, 0)
    {
      i := 0;
      while i < |tab|
        invariant 0 <= i <= PageRefs.Locate(tab, d, 0)
      {
        assert (tab[i].count != -1 && tab[i].pgdir == d) <==> PageRefs.Live(tab, i, d);
        if tab[i].count != -1 && tab[i].pgdir == d { return; }
        i := i + 1;
      }
    }

    /** allocate_uvmrefcount */
    method AllocateRef(d: int, count: int)
      modifies this`tab
      ensures var i := PageRefs.FreeEntry(old(tab), 0);
        tab == if i < |old(tab)| then old(tab)[i := PageRefs.Ref(count, d)] else old(tab)
    {
      var i := 0;
      while i < |tab|
        invariant 0 <= i <= PageRefs.FreeEntry(old(tab), 0) && tab == old(tab)
      {
        if tab[i].count == -1 {
          tab := tab[i := PageRefs.Ref(count, d)];
          return;
        }
        i := i + 1;
      }
    }

    /** clone's count of one more user */
    method ShareDir(d: int)
      modifies this`tab
      ensures tab == PageRefs.Shared(old(tab), d)
    {
      var i := LocateRef(d);
      if i < |tab| {
        tab := tab[i := tab[i].(count := tab[i].count + 1)];
      } else {
        AllocateRef(d, 2);
      }
    }

    // ---- deallocuvm and freevm ----

    method DeallocUvm(d: int, oldsz: nat, newsz: nat) returns (r: nat)
      modifies this`vm
      ensures vm == Dealloc(old(vm), d, oldsz, newsz) && r == if newsz >= oldsz then oldsz else newsz
    {
      if newsz >= oldsz { return oldsz; }
      var a := RoundUp(newsz);
      while a * PGSIZE < oldsz
        invariant DeallocLoop(vm, d, a, RoundUp(oldsz)) == DeallocLoop(old(vm), d, RoundUp(newsz), RoundUp(oldsz))
        decreases oldsz - a * PGSIZE
      {
        assert a < RoundUp(oldsz);
        if (d, a / NPDE) !in vm.pde {
          a := (a / NPDE + 1) * NPDE;
        } else {
          if (d, a) in vm.pte { vm := Unmap(vm, d, a); }
          a := a + 1;
        }
      }
      r := newsz;
    }

    /** freevm: panics at a count below one and at directory 0; a directory that others still use only loses a count. */
    method FreeVm(d: int) returns (panic: bool)
      modifies this`vm, this`tab
      ensures panic <==> var i := PageRefs.Locate(old(tab), d, 0);
        (i < |old(tab)| && old(tab)[i].count < 1) || (d == 0 && PageRefs.Dropped(old(tab), d).1)
      ensures !panic ==> tab == PageRefs.Dropped(old(tab), d).0
      ensures !panic ==> vm == if PageRefs.Dropped(old(tab), d).1 then FreeDir(old(vm), d) else old(vm)
    {
      var i := LocateRef(d);
      if i < |tab| {
        assert PageRefs.Live(tab, i, d);
        if tab[i].count < 1 { return true; }
        tab := tab[i := tab[i].(count := tab[i].count - 1)];
        if tab[i].count != 0 { return false; }
        tab := tab[i := tab[i].(count := -1)];
        assert tab == old(tab)[i := PageRefs.Ref(-1, d)];
      }
      if d == 0 { return true; }
      var r := DeallocUvm(d, KERNBASE, 0);
      FreeTables(d);
      vm := DropDir(vm, d);
      panic := false;
    }

    /** The loop of freevm over the directory entries */
    method FreeTables(d: int)
      modifies this`vm
      ensures vm == DropTables(old(vm), d, 0)
    {
      var i := 0;
      while i < NPDE
        invariant 0 <= i <= NPDE && DropTables(vm, d, i) == DropTables(old(vm), d, 0)
      {
        if (d, i) in vm.pde { vm := DropTable(vm, d, i); }
        i := i + 1;
      }
    }

    // ---- allocuvm ----

    /** allocuvm; `r` is the new size, or 0 without memory */
    method AllocUvm(d: int, oldsz: nat, newsz: nat) returns (r: nat, panic: bool)
      modifies this`vm
      ensures panic == Alloc(old(vm), d, oldsz, newsz).RemapPanic?
      ensures !panic ==> Alloc(old(vm), d, oldsz, newsz) == Ret(vm, r)
    {
      r, panic := 0, false;
      if newsz >= KERNBASE { return; }
      if newsz < oldsz { return oldsz, false; }
      var a := RoundUp(oldsz);
      while a * PGSIZE < newsz
        invariant RoundUp(oldsz) <= a
        invariant AllocLoop(vm, d, a, RoundUp(newsz)) == AllocLoop(old(vm), d, RoundUp(oldsz), RoundUp(newsz))
      {
        assert a < RoundUp(newsz);
        var ok, mem := Kalloc(0);
        if !ok {
          var sz := DeallocUvm(d, newsz, oldsz);
          return;
        }
        ok, panic := MapPage(d, a, Pte(mem, 6, true));
        if panic { return; }
        if !ok {
          var sz := DeallocUvm(d, newsz, oldsz);
          vm := Give(vm, mem);
          return;
        }
        a := a + 1;
      }
      r := newsz;
    }

    // ---- setupkvm and copyuvm ----

    /** setupkvm; `kmap` lists the pages of the kernel part, and 0 is returned without memory. */
    method SetupKvm(kmap: seq<KPage>) returns (d: int)
      requires Inv(vm) && KernelPages(kmap) && 0 !in vm.free && NoStale(vm.free, tab)
      modifies this`vm, this`tab
      ensures (vm, d) == Setup(old(vm), kmap) && tab == old(tab)
    {
      if vm.free == [] { return 0; }
      d := vm.free[0];
      ghost var t := SetupLoop(NewDir(vm), d, kmap, 0);
      NewDirEmpty(vm);
      SetupLoopTurns(NewDir(vm), d, kmap, 0, t);
      NotLive(vm.free, tab, d);
      vm := NewDir(vm);
      var i := 0;
      while i < |kmap|
        invariant 0 <= i <= |kmap| && SetupLoop(vm, d, kmap, i) == t && tab == old(tab)
      {
        var ok, panic := MapPage(d, kmap[i].virt, EntryOf(kmap[i]));
        assert !panic;
        if !ok {
          panic := FreeVm(d);
          return 0;
        }
        i := i + 1;
      }
    }

    /** The rest of a turn of copyuvm's loop, once the page to copy is found */
    method CopyPage(d0: int, d: int, a: nat) returns (ok: bool, panic: bool)
      requires (d0, a) in vm.pte
      modifies this`vm
      ensures var t := CopyOne(old(vm), d0, d, a);
        ok == t.Went? && panic == t.Remap? && !t.Absent? && (!panic ==> vm == Settled(t))
    {
      var src := vm.pte[(d0, a)];
      panic := false;
      var mem;
      ok, mem := Kalloc(Content(vm, src.page));
      if !ok { return; }
      ok, panic := MapPage(d, a, Pte(mem, src.flags, true));
      if !ok && !panic { vm := Give(vm, mem); }
    }

    /** copyuvm; 0 is returned without memory. */
    method CopyUvm(d0: int, sz: nat, kmap: seq<KPage>) returns (d: int, panic: bool)
      requires Inv(vm) && KernelPages(kmap) && 0 !in vm.free && NoStale(vm.free, tab)
      modifies this`vm, this`tab
      ensures panic == !Copy(old(vm), d0, sz, kmap).Ret?
      ensures !panic ==> Copy(old(vm), d0, sz, kmap) == Ret(vm, d) && tab == old(tab)
    {
      panic := false;
      ghost var v0 := vm;
      if vm.free != [] { NotLive(vm.free, tab, vm.free[0]); }
      d := SetupKvm(kmap);
      if d == 0 { return; }
      ghost var t := CopyLoop(vm, d0, d, 0, RoundUp(sz));
      var a := 0;
      while a * PGSIZE < sz
        invariant CopyLoop(vm, d0, d, a, RoundUp(sz)) == t && tab == old(tab)
      {
        assert a < RoundUp(sz);
        if (d0, a) !in vm.pte { return 0, true; }
        var ok;
        ok, panic := CopyPage(d0, d, a);
        if panic { return 0, true; }
        if !ok {
          panic := FreeVm(d);
          return 0, false;
        }
        a := a + 1;
      }
    }

    // ---- The address spaces of processes ----

    /** growproc; -1 when allocuvm or deallocuvm returned 0 */
    method GrowProc(c: nat, n: int) returns (ok: bool, panic: bool)
      requires Used(Value(), c)
      modifies this`vm, this`procs
      ensures panic == !SbrkIn(old(Value()), c, n).Ran?
      ensures !panic ==> SbrkIn(old(Value()), c, n) == Ran(Value())
      ensures !panic && n > 0 ==> (ok <==> procs[c].sz == old(procs)[c].sz + n)
      ensures !panic && n < 0 ==> (ok <==> 0 < old(procs)[c].sz && 0 < Less(old(procs)[c].sz, n))
    {
      panic := false;
      var d, sz := procs[c].dir, procs[c].sz;
      if n > 0 {
        sz, panic := AllocUvm(d, sz, sz + n);
        if panic { return false, true; }
        if sz == 0 { return false, false; }
      } else if n < 0 {
        sz := DeallocUvm(d, sz, Less(sz, n));
        if sz == 0 { return false, false; }
      }
      procs := procs[c := procs[c].(sz := sz)];
      ok := true;
    }

    /** allocproc: a slot and a kernel stack */
    method AllocProc() returns (ok: bool, np: nat, stack: int)
      modifies this`vm
      ensures ok == HasSlot(old(Value()))
      ensures ok ==> np == FreeSlot(procs, 0) && stack == old(vm).free[0] && vm == Take(old(vm), Elsewhere)
      ensures !ok ==> vm == old(vm)
    {
      ok, np, stack := false, 0, 0;
      while np < |procs|
        invariant 0 <= np <= FreeSlot(procs, 0)
      {
        if procs[np].dir == 0 { break; }
        np := np + 1;
      }
      if np == |procs| || vm.free == [] { return; }
      stack := vm.free[0];
      vm := Take(vm, Elsewhere);
      ok := true;
    }

    /** fork's part */
    method ForkSpace(c: nat, kmap: seq<KPage>) returns (ok: bool, panic: bool)
      requires KernOk(Value()) && KernelPages(kmap) && Used(Value(), c)
      modifies this
      ensures panic == !ForkIn(old(Value()), c, kmap).Ran?
      ensures !panic ==> ForkIn(old(Value()), c, kmap) == Ran(Value())
      ensures !panic ==> (ok <==> HasSlot(old(Value())) && Used(Value(), FreeSlot(old(procs), 0)))
    {
      panic := false;
      ghost var k := Value();
      if HasSlot(k) { StackTaken(k); }
      var np, stack;
      ok, np, stack := AllocProc();
      if !ok { return; }
      var d;
      d, panic := CopyUvm(procs[c].dir, procs[c].sz, kmap);
      if panic { return false, true; }
      if d == 0 {
        vm := Give(vm, stack);
        return false, false;
      }
      procs := procs[np := Space(d, procs[c].sz, stack)];
    }

    /** clone's part */
    method CloneSpace(c: nat) returns (ok: bool)
      requires Used(Value(), c)
      modifies this
      ensures Value() == CloneIn(old(Value()), c) && ok == HasSlot(old(Value()))
    {
      var np, stack;
      ok, np, stack := AllocProc();
      if !ok { return; }
      ShareDir(procs[c].dir);
      procs := procs[np := Space(procs[c].dir, procs[c].sz, stack)];
    }

    /** The loop of exec over the segments; false when allocuvm returned 0 */
    method LoadSegments(d: int, segs: seq<nat>) returns (ok: bool, sz: nat)
      requires Load(vm, d, 0, segs).Ret?
      modifies this`vm
      ensures Load(old(vm), d, 0, segs) == Ret(vm, if ok then sz else -1)
    {
      sz := 0;
      var i := 0;
      assert segs[0..] == segs;
      while i < |segs|
        invariant 0 <= i <= |segs| && Load(vm, d, sz, segs[i..]) == Load(old(vm), d, 0, segs)
      {
        assert segs[i..][0] == segs[i] && segs[i..][1..] == segs[i + 1..];
        var panic;
        sz, panic := AllocUvm(d, sz, segs[i]);
        assert !panic;
        if sz == 0 { return false, 0; }
        i := i + 1;
      }
      ok := true;
    }

    /** The two pages of the stack; false when allocuvm returned 0 */
    method StackPages(d: int, end: nat) returns (ok: bool, sz: nat)
      requires AddStack(vm, d, end).Ret?
      modifies this`vm
      ensures AddStack(old(vm), d, end) == Ret(vm, if ok then sz else -1)
    {
      var base := RoundUp(end) * PGSIZE;
      var panic;
      sz, panic := AllocUvm(d, base, base + 2 * PGSIZE);
      assert !panic;
      if sz == 0 { return false, 0; }
      if (d, base / PGSIZE) in vm.pte {
        var e := vm.pte[(d, base / PGSIZE)];
        vm := vm.(pte := vm.pte[(d, base / PGSIZE) := e.(flags := NoUser(e.flags))]);
      }
      ok := true;
    }

    /** The new image of exec */
    method MakeImage(d: int, segs: seq<nat>, check: Check) returns (ok: bool, sz: nat)
      requires Load(vm, d, 0, segs).Ret? && Image(vm, d, segs).Ret?
      modifies this`vm
      ensures NewImage(old(vm), d, segs, check) == Ret(vm, if ok then sz else -1)
    {
      ok, sz := LoadSegments(d, segs);
      if !ok || check == BadSegment { return false, 0; }
      ok, sz := StackPages(d, sz);
      if check == BadArguments { return false, 0; }
    }

    /** The address-space part of exec: freevm does not panic in it. */
    method ExecSpace(c: nat, segs: seq<nat>, check: Check, kmap: seq<KPage>) returns (ok: bool)
      requires KernOk(Value()) && KernelPages(kmap) && Used(Value(), c)
      modifies this
      ensures ExecIn(old(Value()), c, segs, check, kmap) == Ran(Value())
      ensures ok <==> procs[c].dir != old(procs)[c].dir
    {
      ghost var k := Value();
      NeverStale(k);
      NoDirZero(k);
      assert SlotOk(k, c);
      if vm.free != [] { NotLive(vm.free, tab, vm.free[0]); }
      var d := SetupKvm(kmap);
      if d == 0 { return false; }
      ExecStarts(k, segs, check, kmap, d, vm);
      var sz;
      ok, sz := MakeImage(d, segs, check);
      var gone := d;
      if ok {
        gone := procs[c].dir;
        procs := procs[c := Space(d, sz, procs[c].stack)];
      }
      var panic := FreeVm(gone);
      assert !panic;
    }

    /** wait's part: freevm does not panic. */
    method WaitSpace(z: nat)
      requires KernOk(Value()) && Used(Value(), z)
      modifies this
      ensures Value() == WaitIn(old(Value()), z)
    {
      NeverStale(Value());
      vm := Give(vm, procs[z].stack);
      var panic := FreeVm(procs[z].dir);
      assert !panic;
      procs := procs[z := Space(0, 0, 0)];
    }
  }

  /** With a new directory, the image can be made, and `d` is not the old directory. */
  lemma ExecStarts(k: Kern, segs: seq<nat>, check: Check, kmap: seq<KPage>, d: int, v: Vm)
    requires KernOk(k) && KernelPages(kmap) && (v, d) == Setup(k.vm, kmap) && d != 0
    ensures Load(v, d, 0, segs).Ret? && Image(v, d, segs).Ret? && d !in k.vm.dirs && d == k.vm.free[0]
  {
    SetupSized(k.vm, kmap);
    LoadGrown(v, d, 0, segs, Load(v, d, 0, segs));
    GrownSized(v, d, Load(v, d, 0, segs));
    ImageGrown(v, d, segs, Image(v, d, segs));
    GrownSized(v, d, Image(v, d, segs));
    MadeOne(k.vm, v, d);
  }

  /** With the kernel stack taken, copyuvm can begin. */
  lemma StackTaken(k: Kern)
    requires KernOk(k) && HasSlot(k)
    ensures var v := Take(k.vm, Elsewhere); Inv(v) && 0 !in v.free && NoStale(v.free, k.tab)
  {
    TakeStack(k.vm);
    NeverStale(k);
    NoDirZero(k);
  }
}
