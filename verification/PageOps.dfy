/** vm.c on values: what walkpgdir, mappages, allocuvm, deallocuvm, setupkvm, copyuvm and freevm make of the pages. */
module PageOps {
  import opened PagePool

  const PGSIZE: nat := 4096
  const KERNBASE: nat := 0x8000_0000
  const ENTRIES: nat := 0x10_0000 // virtual page numbers

  /** Pages that kalloc gave and no entry holds. */
  function Hands(v: Vm): set<int> { set p | p in v.owner && v.owner[p] == InHand }

  /** The first page boundary at or above `sz`, as a page number. */
  function RoundUp(sz: nat): nat { (sz + PGSIZE - 1) / PGSIZE }

  /** `v'` comes from `v` by work on directory `d` alone: pages are conserved and the books are in order. */
  ghost predicate Works(v: Vm, v': Vm, d: int) {
    Inv(v') && Outside(v, v', d) && Pages(v') == Pages(v)
  }

  lemma WorksThen(v: Vm, v1: Vm, v2: Vm, d: int)
    requires Works(v, v1, d) && Works(v1, v2, d)
    ensures Works(v, v2, d)
  {
    OutsideThen(v, v1, v2, d);
  }

  lemma GrabWorks(v: Vm, d: int)
    requires Inv(v) && v.free != []
    ensures Works(v, Take(v, InHand), d) && v.free[0] !in v.owner
  {
    GrabInv(v);
    TakeFree(v, InHand);
    TakeOutside(v, InHand, d);
  }

  lemma ReturnWorks(v: Vm, p: int, d: int)
    requires Inv(v) && Owns(v, p, InHand)
    ensures Works(v, Give(v, p), d)
  {
    ReturnInv(v, p);
    GiveFree(v, p);
    GiveOutside(v, p, d);
  }

  lemma NewTableWorks(v: Vm, d: int, x: int)
    requires Inv(v) && v.free != [] && d in v.dirs && 0 <= x < NPDE && (d, x) !in v.pde
    ensures Works(v, NewTable(v, d, x), d)
  {
    NewTableInv(v, d, x);
    TakeFree(v, TableOf(d, x));
    TakeOutside(v, TableOf(d, x), d);
    EntriesOutside(Take(v, TableOf(d, x)), NewTable(v, d, x), d);
    OutsideThen(v, Take(v, TableOf(d, x)), NewTable(v, d, x), d);
  }

  lemma MapUserWorks(v: Vm, d: int, a: int, p: int, flags: int)
    requires Inv(v) && d in v.dirs && 0 <= a < USER && (d, a / NPDE) in v.pde && (d, a) !in v.pte && Owns(v, p, InHand)
    ensures Works(v, MapUser(v, d, a, p, flags), d)
  {
    MapUserInv(v, d, a, p, flags);
    MapUserOutside(v, d, a, p, flags);
  }

  lemma MapKernelWorks(v: Vm, d: int, a: int, e: Pte)
    requires Inv(v) && d in v.dirs && a >= USER && (d, a / NPDE) in v.pde && !e.own
    ensures Works(v, MapKernel(v, d, a, e), d)
  {
    MapKernelInv(v, d, a, e);
    EntriesOutside(v, MapKernel(v, d, a, e), d);
  }

  lemma FilledWorks(v: Vm, p: int, c: int, d: int)
    requires Inv(v) && Owns(v, p, InHand)
    ensures Works(v, Filled(v, p, c), d)
  {
    FilledInv(v, p, c);
    FilledOutside(v, p, c, d);
  }

  lemma UnmapWorks(v: Vm, d: int, a: int)
    requires Inv(v) && (d, a) in v.pte && a < USER
    ensures Works(v, Unmap(v, d, a), d)
  {
    UnmapInv(v, d, a);
    var v1 := v.(pte := v.pte - {(d, a)});
    EntriesOutside(v, v1, d);
    GiveOutside(v1, v.pte[(d, a)].page, d);
    OutsideThen(v, v1, Unmap(v, d, a), d);
  }

  lemma DropTableWorks(v: Vm, d: int, x: int)
    requires Inv(v) && (d, x) in v.pde && forall a :: (d, a) in v.pte ==> a >= USER
    ensures Works(v, DropTable(v, d, x), d)
  {
    DropTableInv(v, d, x);
    var v1 := v.(pde := v.pde - {(d, x)}, pte := map k | k in v.pte && !(k.0 == d && k.1 / NPDE == x) :: v.pte[k]);
    EntriesOutside(v, v1, d);
    GiveOutside(v1, v.pde[(d, x)], d);
    OutsideThen(v, v1, DropTable(v, d, x), d);
  }

  lemma DropDirWorks(v: Vm, d: int)
    requires Inv(v) && d in v.dirs && forall x :: (d, x) !in v.pde
    ensures Works(v, DropDir(v, d), d)
  {
    DropDirInv(v, d);
    var v1 := v.(dirs := v.dirs - {d});
    EntriesOutside(v, v1, d);
    GiveOutside(v1, d, d);
    OutsideThen(v, v1, DropDir(v, d), d);
  }

  lemma NewDirWorks(v: Vm)
    requires Inv(v) && v.free != []
    ensures Works(v, NewDir(v), v.free[0]) && v.free[0] !in v.dirs
  {
    var d := v.free[0];
    NewDirInv(v);
    TakeFree(v, DirOf);
    TakeOutside(v, DirOf, d);
    EntriesOutside(Take(v, DirOf), NewDir(v), d);
    OutsideThen(v, Take(v, DirOf), NewDir(v), d);
  }

  // ---- deallocuvm ----

  /** The entries of `pte` without user pages `lo`, ..., `hi - 1` of directory `d`. */
  function Cut(pte: map<(int, int), Pte>, d: int, lo: int, hi: int): map<(int, int), Pte> {
    map k | k in pte && !(k.0 == d && lo <= k.1 < hi) :: pte[k]
  }

  lemma CutHead(pte: map<(int, int), Pte>, d: int, a: int, hi: int)
    requires a < hi
    ensures Cut(pte - {(d, a)}, d, a + 1, hi) == Cut(pte, d, a, hi)
  {
  }

  lemma SameTable(x: int, a: int)
    ensures a <= x < (a / NPDE + 1) * NPDE ==> x / NPDE == a / NPDE
  {
  }

  /** A missing table has no entries, so the jump to the next one passes over nothing. */
  lemma CutJump(v: Vm, d: int, a: int, hi: int)
    requires PteOk(v) && (d, a / NPDE) !in v.pde
    ensures Cut(v.pte, d, (a / NPDE + 1) * NPDE, hi) == Cut(v.pte, d, a, hi)
  {
    forall x | (d, x) in v.pte ensures x < a || x >= (a / NPDE + 1) * NPDE { SameTable(x, a); }
    forall k | k in v.pte ensures k in Cut(v.pte, d, (a / NPDE + 1) * NPDE, hi) <==> k in Cut(v.pte, d, a, hi) {
      assert (k.0, k.1) in v.pte;
    }
  }

  /** The body of deallocuvm's loop where there is a table */
  function FreePage(v: Vm, d: int, a: nat): Vm { if (d, a) in v.pte then Unmap(v, d, a) else v }

  /** The loop of deallocuvm from page `a` on */
  function DeallocLoop(v: Vm, d: int, a: nat, hi: nat): Vm
    decreases hi - a
  {
    if a >= hi then v
    else if (d, a / NPDE) !in v.pde then DeallocLoop(v, d, (a / NPDE + 1) * NPDE, hi)
    else DeallocLoop(FreePage(v, d, a), d, a + 1, hi)
  }

  /** deallocuvm's effect; it returns the smaller size */
  function Dealloc(v: Vm, d: int, oldsz: nat, newsz: nat): Vm {
    if newsz >= oldsz then v else DeallocLoop(v, d, RoundUp(newsz), RoundUp(oldsz))
  }

  /** Work on the entries of `d` that leaves the directories and the pages in hand as they are. */
  ghost predicate Edits(v: Vm, v': Vm, d: int) {
    Works(v, v', d) && v'.dirs == v.dirs && Hands(v') == Hands(v)
  }

  lemma EditsThen(v: Vm, v1: Vm, v2: Vm, d: int)
    requires Edits(v, v1, d) && Edits(v1, v2, d)
    ensures Edits(v, v2, d)
  {
    WorksThen(v, v1, v2, d);
  }

  lemma EditsNot(v: Vm, d: int)
    requires Inv(v)
    ensures Edits(v, v, d)
  {
  }

  lemma FreePageEdits(v: Vm, d: int, a: nat)
    requires Inv(v) && a < USER
    ensures Edits(v, FreePage(v, d, a), d) && FreePage(v, d, a).pde == v.pde
    ensures FreePage(v, d, a).pte == v.pte - {(d, a)}
  {
    EditsNot(v, d);
    if (d, a) in v.pte {
      UnmapWorks(v, d, a);
      assert Hands(Unmap(v, d, a)) == Hands(v);
    }
  }

  /** User pages `a`, ..., `hi - 1` of `d` are unmapped and freed, no other entry moved.  The quantifier over the one
      directory keeps this a single fact in the proofs that carry it along; so it is with the predicates below that
      have one. */
  ghost predicate CutTo(v: Vm, w: Vm, d: int, a: nat, hi: nat) {
    forall e | e == d :: CutOf(v, w, e, a, hi)
  }

  ghost predicate CutOf(v: Vm, w: Vm, d: int, a: nat, hi: nat) {
    Edits(v, w, d) && w.pde == v.pde && w.pte == Cut(v.pte, d, a, hi)
  }

  lemma CutNone(v: Vm, d: int, a: nat, hi: nat)
    requires Inv(v) && a >= hi
    ensures CutTo(v, v, d, a, hi)
  {
    EditsNot(v, d);
    assert Cut(v.pte, d, a, hi) == v.pte;
  }

  lemma CutOver(v: Vm, w: Vm, d: int, a: nat, hi: nat)
    requires Inv(v) && (d, a / NPDE) !in v.pde && CutTo(v, w, d, (a / NPDE + 1) * NPDE, hi)
    ensures CutTo(v, w, d, a, hi)
  {
    assert CutOf(v, w, d, (a / NPDE + 1) * NPDE, hi);
    CutJump(v, d, a, hi);
  }

  lemma CutTurn(v: Vm, w: Vm, d: int, a: nat, hi: nat)
    requires Inv(v) && a < hi <= USER && CutTo(FreePage(v, d, a), w, d, a + 1, hi)
    ensures CutTo(v, w, d, a, hi)
  {
    var v1 := FreePage(v, d, a);
    assert CutOf(v1, w, d, a + 1, hi);
    FreePageEdits(v, d, a);
    EditsThen(v, v1, w, d);
    CutHead(v.pte, d, a, hi);
  }

  lemma FreePageInv(v: Vm, d: int, a: nat)
    requires Inv(v) && a < USER
    ensures Inv(FreePage(v, d, a))
  {
    FreePageEdits(v, d, a);
  }

  lemma {:induction false} DeallocLoopCuts(v: Vm, d: int, a: nat, hi: nat, w: Vm)
    requires Inv(v) && hi <= USER && w == DeallocLoop(v, d, a, hi)
    ensures CutTo(v, w, d, a, hi)
    decreases hi - a
  {
    if a >= hi {
      CutNone(v, d, a, hi);
    } else if (d, a / NPDE) !in v.pde {
      DeallocLoopCuts(v, d, (a / NPDE + 1) * NPDE, hi, w);
      CutOver(v, w, d, a, hi);
    } else {
      FreePageInv(v, d, a);
      DeallocLoopCuts(FreePage(v, d, a), d, a + 1, hi, w);
      CutTurn(v, w, d, a, hi);
    }
  }

  lemma DeallocCuts(v: Vm, d: int, oldsz: nat, newsz: nat)
    requires Inv(v) && oldsz <= KERNBASE
    ensures var w := Dealloc(v, d, oldsz, newsz);
      Edits(v, w, d) && w.pde == v.pde && w.pte == Cut(v.pte, d, RoundUp(newsz), RoundUp(oldsz))
  {
    var w, lo, hi := Dealloc(v, d, oldsz, newsz), RoundUp(newsz), RoundUp(oldsz);
    if newsz < oldsz { DeallocLoopCuts(v, d, lo, hi, w); } else { CutNone(v, d, lo, hi); }
    assert CutOf(v, w, d, lo, hi);
  }

  // ---- freevm ----

  /** Directory `d` and all that belonged to it are gone. */
  ghost predicate Gone(v: Vm, d: int) {
    d !in v.dirs && (forall x :: (d, x) !in v.pde) && (forall a :: (d, a) !in v.pte)
  }

  /** The loop of freevm over the directory entries from `i` on */
  function DropTables(v: Vm, d: int, i: nat): Vm
    decreases NPDE - i
  {
    if i >= NPDE then v else DropTables(if (d, i) in v.pde then DropTable(v, d, i) else v, d, i + 1)
  }

  /** freevm once the last user is gone */
  function FreeDir(v: Vm, d: int): Vm { DropDir(DropTables(Dealloc(v, d, KERNBASE, 0), d, 0), d) }

  lemma TableGone(v: Vm, d: int, x: int)
    requires Inv(v) && (d, x) in v.pde && forall a :: (d, a) in v.pte ==> a >= USER
    ensures var w := DropTable(v, d, x);
      && Edits(v, w, d) && (forall y :: (d, y) in w.pde ==> (d, y) in v.pde && y != x)
      && (forall a :: (d, a) in w.pte ==> a >= USER)
  {
    DropTableWorks(v, d, x);
  }

  lemma {:induction false} TablesGone(v: Vm, d: int, i: nat)
    requires Inv(v) && i <= NPDE && forall a :: (d, a) in v.pte ==> a >= USER
    requires forall x :: (d, x) in v.pde ==> x >= i
    ensures var w := DropTables(v, d, i); Edits(v, w, d) && forall x :: (d, x) !in w.pde
    decreases NPDE - i
  {
    EditsNot(v, d);
    if i < NPDE {
      var v1 := if (d, i) in v.pde then DropTable(v, d, i) else v;
      if (d, i) in v.pde { TableGone(v, d, i); }
      TablesGone(v1, d, i + 1);
      EditsThen(v, v1, DropTables(v1, d, i + 1), d);
    }
  }

  lemma DirGone(v: Vm, d: int)
    requires Inv(v) && d in v.dirs && forall x :: (d, x) !in v.pde
    ensures var w := DropDir(v, d); Works(v, w, d) && Gone(w, d) && Hands(w) == Hands(v)
  {
    DropDirWorks(v, d);
  }

  /** Directory, tables and user pages are gone, nothing else is touched. */
  lemma FreeDirGone(v: Vm, d: int)
    requires Inv(v) && d in v.dirs
    ensures var w := FreeDir(v, d); Works(v, w, d) && Gone(w, d) && Hands(w) == Hands(v) && w.dirs == v.dirs - {d}
  {
    DeallocCuts(v, d, KERNBASE, 0);
    var v1 := Dealloc(v, d, KERNBASE, 0);
    TablesGone(v1, d, 0);
    var v2 := DropTables(v1, d, 0);
    EditsThen(v, v1, v2, d);
    DirGone(v2, d);
    WorksThen(v, v2, DropDir(v2, d), d);
  }

  /** The pages of directory `d`: its own, its tables and its user pages. */
  function PagesOf(v: Vm, d: int): set<int> {
    set p | p in v.owner && Mine(v, p, d) && v.owner[p] != InHand
  }

  /** The free pages after freevm are those before it and the pages of the directory, no more and no fewer. */
  lemma FreeDirFrees(v: Vm, d: int)
    requires Inv(v) && d in v.dirs && Hands(v) == {}
    ensures FreeSet(FreeDir(v, d)) == FreeSet(v) + PagesOf(v, d)
    ensures Pages(FreeDir(v, d)) == Pages(v)
  {
    var w := FreeDir(v, d);
    FreeDirGone(v, d);
    forall p ensures p in FreeSet(w) <==> p in FreeSet(v) + PagesOf(v, d) {
      FreeRest(v, p);
      FreeRest(w, p);
      StillOwned(v, w, d, p);
    }
  }

  lemma StillOwned(v: Vm, w: Vm, d: int, p: int)
    requires Inv(v) && Hands(v) == {} && Works(v, w, d) && Gone(w, d) && Hands(w) == {}
    ensures p in w.owner <==> p in v.owner && p !in PagesOf(v, d)
  {
    if p in w.owner {
      assert Held(w, p) && p !in Hands(w);
      assert Owns(v, p, w.owner[p]);
    }
    if p in v.owner && p !in PagesOf(v, d) {
      assert p !in Hands(v) && Kept(v, w, d, p);
    }
  }

  lemma FreeRest(v: Vm, p: int)
    requires FreeOk(v)
    ensures p in v.free <==> p in Pages(v) && p !in v.owner
  {
  }

  // ---- walkpgdir and mappages ----

  /** walkpgdir with `alloc` set finds a table or a page for one. */
  predicate CanWalk(v: Vm, d: int, a: nat) { (d, a / NPDE) in v.pde || v.free != [] }

  function Walked(v: Vm, d: int, a: nat): Vm
    requires CanWalk(v, d, a)
  {
    if (d, a / NPDE) in v.pde then v else NewTable(v, d, a / NPDE)
  }

  /** The indices of the tables that directory `d` has. */
  function Tables(v: Vm, d: int): set<int> { set k | k in v.pde && k.0 == d :: k.1 }

  lemma TablesIn(v: Vm, d: int, x: int)
    ensures x in Tables(v, d) <==> (d, x) in v.pde
  {
    if (d, x) in v.pde { assert (d, x).0 == d && (d, x).1 == x; }
  }

  lemma WalkedEdits(v: Vm, d: int, a: nat)
    requires Inv(v) && d in v.dirs && a < ENTRIES && CanWalk(v, d, a)
    ensures var w := Walked(v, d, a);
      && Edits(v, w, d) && w.pte == v.pte && w.data == v.data && Tables(w, d) == Tables(v, d) + {a / NPDE}
      && (d, a / NPDE) in w.pde && |w.free| == |v.free| - (if (d, a / NPDE) in v.pde then 0 else 1)
      && (forall p :: Owns(v, p, InHand) ==> Owns(w, p, InHand))
  {
    var w := Walked(v, d, a);
    EditsNot(v, d);
    if (d, a / NPDE) !in v.pde {
      NewTableWorks(v, d, a / NPDE);
      TakeFree(v, TableOf(d, a / NPDE));
      assert Hands(w) == Hands(v);
    }
    forall x ensures x in Tables(w, d) <==> x in Tables(v, d) + {a / NPDE} {
      TablesIn(v, d, x);
      TablesIn(w, d, x);
    }
  }

  /** What a turn of a loop over pages comes to: it went on, kalloc had no page for the data, it had none for a table
      with `mem` already in hand, the entry was present already, or the page to be copied was not. */
  datatype Turn = Went(v: Vm) | NoPage(v: Vm) | NoTable(v: Vm, mem: int) | Remap | Absent

  /** kalloc, the page filled with `c`, and mappages for it at user page `a` */
  function MapOne(v: Vm, d: int, a: nat, c: int, flags: int): Turn {
    if v.free == [] then NoPage(v)
    else
      var p := v.free[0];
      var v1 := Filled(Take(v, InHand), p, c);
      if !CanWalk(v1, d, a) then NoTable(v1, p)
      else if (d, a) in v1.pte then Remap
      else Went(MapUser(Walked(v1, d, a), d, a, p, flags))
  }

  lemma TookOne(v: Vm, d: int, c: int)
    requires Inv(v) && v.free != []
    ensures var p := v.free[0]; var w := Filled(Take(v, InHand), p, c);
      && Works(v, w, d) && Owns(w, p, InHand) && Hands(w) == Hands(v) + {p} && p !in v.owner
  {
    GrabWorks(v, d);
    var v1 := Take(v, InHand);
    FilledWorks(v1, v.free[0], c, d);
    WorksThen(v, v1, Filled(v1, v.free[0], c), d);
  }

  /** One more user entry for `d`, on a page that was free and now holds `c`; no other entry, and no page of another
      entry, changed. */
  ghost predicate NewPage(v: Vm, w: Vm, d: int, a: int, c: int, flags: int) {
    && v.free != [] && v.free[0] !in v.owner && (d, a) !in v.pte
    && w.pte == v.pte[(d, a) := Pte(v.free[0], flags, true)] && w.data == v.data[v.free[0] := c]
  }

  /** Pages that one more user page takes from the free list. */
  function Costs(v: Vm, d: int, a: nat): nat { if (d, a / NPDE) in v.pde then 1 else 2 }

  lemma PutIn(v: Vm, d: int, a: nat, p: int, flags: int)
    requires Inv(v) && d in v.dirs && a < USER && (d, a / NPDE) in v.pde && (d, a) !in v.pte && Owns(v, p, InHand)
    ensures var w := MapUser(v, d, a, p, flags);
      Works(v, w, d) && Hands(w) == Hands(v) - {p} && Tables(w, d) == Tables(v, d)
  {
    MapUserWorks(v, d, a, p, flags);
  }

  lemma MapOneEdits(v: Vm, d: int, a: nat, c: int, flags: int)
    requires Inv(v) && d in v.dirs && a < USER && MapOne(v, d, a, c, flags).Went?
    ensures Edits(v, MapOne(v, d, a, c, flags).v, d)
  {
    TookOne(v, d, c);
    var p := v.free[0];
    var v1 := Filled(Take(v, InHand), p, c);
    WalkedEdits(v1, d, a);
    var v2 := Walked(v1, d, a);
    WorksThen(v, v1, v2, d);
    PutIn(v2, d, a, p, flags);
    WorksThen(v, v2, MapUser(v2, d, a, p, flags), d);
  }

  lemma MapOneNew(v: Vm, d: int, a: nat, c: int, flags: int)
    requires Inv(v) && d in v.dirs && a < USER && MapOne(v, d, a, c, flags).Went?
    ensures var w := MapOne(v, d, a, c, flags).v;
      && NewPage(v, w, d, a, c, flags) && Tables(w, d) == Tables(v, d) + {a / NPDE}
      && |w.free| == |v.free| - Costs(v, d, a)
  {
    TookOne(v, d, c);
    var v1 := Filled(Take(v, InHand), v.free[0], c);
    WalkedEdits(v1, d, a);
    assert Tables(v1, d) == Tables(v, d);
    assert Tables(MapOne(v, d, a, c, flags).v, d) == Tables(Walked(v1, d, a), d);
  }

  /** The other turns, each exactly when it happens. */
  lemma MapOneNot(v: Vm, d: int, a: nat, c: int, flags: int)
    requires Inv(v) && d in v.dirs && a < USER
    ensures var t := MapOne(v, d, a, c, flags);
      && (t.Went? <==> Costs(v, d, a) <= |v.free| && (d, a) !in v.pte)
      && (t.Remap? <==> v.free != [] && (d, a) in v.pte)
      && (t.NoPage? <==> v.free == []) && !t.Absent?
    ensures var t := MapOne(v, d, a, c, flags); t.NoPage? ==> t.v == v
    ensures var t := MapOne(v, d, a, c, flags);
      t.NoTable? ==> && Works(v, t.v, d) && t.v.dirs == v.dirs && t.v.pde == v.pde && t.v.pte == v.pte
                     && Owns(t.v, t.mem, InHand) && Hands(t.v) == Hands(v) + {t.mem} && t.mem !in v.owner
  {
    if v.free != [] { TookOne(v, d, c); }
  }

  /** The pages are in order and `d` is a directory. */
  ghost predicate Live(v: Vm, d: int) { forall e | e == d :: LiveOf(v, e) }

  ghost predicate LiveOf(v: Vm, d: int) { Inv(v) && d in v.dirs }

  /** Work on `d` that ended with page `mem` in hand. */
  ghost predicate Stuck(v: Vm, w: Vm, d: int, mem: int) {
    Works(v, w, d) && w.dirs == v.dirs && Owns(w, mem, InHand) && Hands(w) == Hands(v) + {mem} && mem !in Hands(v)
  }

  /** However a turn or a loop ended, unless in a panic, it was work on `d` alone. */
  ghost predicate Ended(v: Vm, t: Turn, d: int) { forall e | e == d :: EndedOf(v, t, e) }

  ghost predicate EndedOf(v: Vm, t: Turn, d: int) {
    (t.Went? || t.NoPage? ==> Edits(v, t.v, d)) && (t.NoTable? ==> Stuck(v, t.v, d, t.mem)) && !t.Absent?
  }

  lemma EndedNot(v: Vm, d: int)
    requires Live(v, d)
    ensures Ended(v, Went(v), d)
  {
    assert LiveOf(v, d);
    EditsNot(v, d);
  }

  lemma EndedThen(v: Vm, v1: Vm, d: int, t: Turn)
    requires Ended(v, Went(v1), d) && Ended(v1, t, d)
    ensures Ended(v, t, d)
  {
    assert EndedOf(v, Went(v1), d) && EndedOf(v1, t, d);
    if !t.Remap? { WorksThen(v, v1, t.v, d); }
  }

  lemma TurnEnds(v: Vm, d: int, a: nat, c: int, flags: int, t: Turn)
    requires Live(v, d) && a < USER && t == MapOne(v, d, a, c, flags)
    ensures Ended(v, t, d) && (t.Went? ==> Live(t.v, d))
  {
    assert LiveOf(v, d);
    MapOneNot(v, d, a, c, flags);
    EditsNot(v, d);
    if t.Went? { MapOneEdits(v, d, a, c, flags); }
  }

  lemma TurnShort(v: Vm, d: int, a: nat, c: int, flags: int, t: Turn)
    requires Live(v, d) && a < USER && t == MapOne(v, d, a, c, flags) && (t.NoPage? || t.NoTable?)
    ensures t.v.pte == v.pte
  {
    assert LiveOf(v, d);
    MapOneNot(v, d, a, c, flags);
  }

  // ---- allocuvm ----

  /** The loop of allocuvm from page `a` on */
  function AllocLoop(v: Vm, d: int, a: nat, hi: nat): Turn
    decreases hi - a
  {
    if a >= hi then Went(v)
    else
      var t := MapOne(v, d, a, 0, 6);
      if t.Went? then AllocLoop(t.v, d, a + 1, hi) else t
  }

  /** What a call comes to: it returns, or the kernel panics at a present entry or at a missing page. */
  datatype Outcome = Ret(v: Vm, r: int) | RemapPanic | AbsentPanic

  /** allocuvm */
  function Alloc(v: Vm, d: int, oldsz: nat, newsz: nat): Outcome {
    if newsz >= KERNBASE then Ret(v, 0)
    else if newsz < oldsz then Ret(v, oldsz)
    else
      match AllocLoop(v, d, RoundUp(oldsz), RoundUp(newsz))
      case Went(w) => Ret(w, newsz)
      case NoPage(w) => Ret(Dealloc(w, d, newsz, oldsz), 0)
      case NoTable(w, mem) => Ret(Give(Dealloc(w, d, newsz, oldsz), mem), 0)
      case Remap => RemapPanic
      case Absent => AbsentPanic
  }

  function Content(v: Vm, p: int): int { if p in v.data then v.data[p] else 0 }

  /** User pages `lo`, ..., `hi - 1` of `d`, none of which was mapped, are mapped to zeroed pages; the other entries
      are those of `v`. */
  ghost predicate Zeroed(v: Vm, w: Vm, d: int, lo: int, hi: int) {
    && Cut(w.pte, d, lo, hi) == v.pte
    && forall a :: lo <= a < hi ==>
         (d, a) !in v.pte && (d, a) in w.pte && w.pte[(d, a)].flags == 6 && Content(w, w.pte[(d, a)].page) == 0
  }

  lemma ZeroedNext(v: Vm, v1: Vm, w: Vm, d: int, lo: int, a: int)
    requires Zeroed(v, v1, d, lo, a) && NewPage(v1, w, d, a, 0, 6) && lo <= a && Inv(v1) && 0 <= lo && a < USER
    ensures Zeroed(v, w, d, lo, a + 1)
  {
    forall b | lo <= b < a + 1
      ensures (d, b) !in v.pte && (d, b) in w.pte && w.pte[(d, b)].flags == 6 && Content(w, w.pte[(d, b)].page) == 0
    {
      if b < a {
        assert (d, b) in v1.pte && Owns(v1, v1.pte[(d, b)].page, DataOf(d, b));
      } else {
        assert (d, a) in v.pte ==> (d, a) in Cut(v1.pte, d, lo, a);
      }
    }
    CutNew(v1.pte, d, lo, a, w.pte[(d, a)]);
  }

  lemma CutNew(pte: map<(int, int), Pte>, d: int, lo: int, a: int, e: Pte)
    requires lo <= a && (d, a) !in pte
    ensures Cut(pte[(d, a) := e], d, lo, a + 1) == Cut(pte, d, lo, a)
  {
  }

  ghost predicate ZeroedTo(v: Vm, w: Vm, d: int, lo: nat, hi: nat) { forall e | e == d :: Zeroed(v, w, e, lo, hi) }

  lemma AllocTurn(v0: Vm, v: Vm, d: int, lo: nat, a: nat)
    requires Live(v, d) && ZeroedTo(v0, v, d, lo, a) && lo <= a < USER && MapOne(v, d, a, 0, 6).Went?
    ensures ZeroedTo(v0, MapOne(v, d, a, 0, 6).v, d, lo, a + 1)
  {
    assert LiveOf(v, d) && Zeroed(v0, v, d, lo, a);
    MapOneNew(v, d, a, 0, 6);
    ZeroedNext(v0, v, MapOne(v, d, a, 0, 6).v, d, lo, a);
  }

  lemma {:induction false} AllocLoopEnds(v: Vm, d: int, a: nat, hi: nat, t: Turn)
    requires Live(v, d) && a <= hi <= USER && t == AllocLoop(v, d, a, hi)
    ensures Ended(v, t, d)
    decreases hi - a
  {
    if a == hi {
      EndedNot(v, d);
    } else {
      var one := MapOne(v, d, a, 0, 6);
      TurnEnds(v, d, a, 0, 6, one);
      if one.Went? {
        AllocLoopEnds(one.v, d, a + 1, hi, t);
        EndedThen(v, one.v, d, t);
      }
    }
  }

  /** The loop has mapped pages `lo`, ..., `a - 1` since `v0`.  On a full turn it has mapped the whole range. */
  lemma {:induction false} AllocLoopWent(v0: Vm, v: Vm, d: int, lo: nat, a: nat, hi: nat, t: Turn)
    requires Live(v, d) && ZeroedTo(v0, v, d, lo, a) && lo <= a <= hi <= USER
    requires t == AllocLoop(v, d, a, hi) && t.Went?
    ensures ZeroedTo(v0, t.v, d, lo, hi)
    decreases hi - a
  {
    if a < hi {
      var one := MapOne(v, d, a, 0, 6);
      TurnEnds(v, d, a, 0, 6, one);
      AllocTurn(v0, v, d, lo, a);
      AllocLoopWent(v0, one.v, d, lo, a + 1, hi, t);
    }
  }

  /** Where it stops short, it has mapped some of the range. */
  lemma {:induction false} AllocLoopShort(v: Vm, d: int, lo: nat, a: nat, hi: nat, t: Turn)
    requires Live(v, d) && lo <= a <= hi <= USER && t == AllocLoop(v, d, a, hi) && (t.NoPage? || t.NoTable?)
    ensures Cut(t.v.pte, d, lo, hi) == Cut(v.pte, d, lo, hi)
    decreases hi - a
  {
    var one := MapOne(v, d, a, 0, 6);
    if one.Went? {
      TurnEnds(v, d, a, 0, 6, one);
      AllocLoopShort(one.v, d, lo, a + 1, hi, t);
      MapOneCut(v, d, lo, a, hi);
    } else {
      TurnShort(v, d, a, 0, 6, one);
    }
  }

  lemma MapOneCut(v: Vm, d: int, lo: nat, a: nat, hi: nat)
    requires Live(v, d) && lo <= a < hi <= USER && MapOne(v, d, a, 0, 6).Went?
    ensures Cut(MapOne(v, d, a, 0, 6).v.pte, d, lo, hi) == Cut(v.pte, d, lo, hi)
  {
    assert LiveOf(v, d);
    MapOneNew(v, d, a, 0, 6);
    CutInside(v.pte, d, lo, a, hi, Pte(v.free[0], 6, true));
  }

  lemma CutInside(pte: map<(int, int), Pte>, d: int, lo: int, a: int, hi: int, e: Pte)
    requires lo <= a < hi
    ensures Cut(pte[(d, a) := e], d, lo, hi) == Cut(pte, d, lo, hi)
  {
  }

  lemma Unstuck(v: Vm, w: Vm, d: int, mem: int)
    requires Stuck(v, w, d, mem)
    ensures Edits(v, Give(w, mem), d)
  {
    ReturnWorks(w, mem, d);
    WorksThen(v, w, Give(w, mem), d);
    assert Hands(Give(w, mem)) == Hands(v);
  }

  lemma StillStuck(v: Vm, w: Vm, w': Vm, d: int, mem: int)
    requires Stuck(v, w, d, mem) && Edits(w, w', d)
    ensures Stuck(v, w', d, mem)
  {
    WorksThen(v, w, w', d);
    assert mem in Hands(w');
  }

  /** On success the pages from the old size to the new one are mapped to zeroed pages and nothing else changed.  On
      failure the whole range is unmapped, so nothing changed if nothing in it was mapped. */
  lemma AllocMeans(v: Vm, d: int, oldsz: nat, newsz: nat)
    requires Inv(v) && d in v.dirs && Hands(v) == {}
    ensures var o := Alloc(v, d, oldsz, newsz);
      && !o.AbsentPanic? && (o.Ret? ==> Edits(v, o.v, d))
      && (newsz >= KERNBASE ==> o == Ret(v, 0)) && (newsz < oldsz && newsz < KERNBASE ==> o == Ret(v, oldsz))
    ensures var o := Alloc(v, d, oldsz, newsz);
      o.Ret? && oldsz <= newsz < KERNBASE ==>
        || (o.r == newsz && Zeroed(v, o.v, d, RoundUp(oldsz), RoundUp(newsz)))
        || (o.r == 0 && o.v.pte == Cut(v.pte, d, RoundUp(oldsz), RoundUp(newsz)))
  {
    EditsNot(v, d);
    if oldsz <= newsz < KERNBASE {
      var lo, hi := RoundUp(oldsz), RoundUp(newsz);
      assert Cut(v.pte, d, lo, lo) == v.pte;
      var t := AllocLoop(v, d, lo, hi);
      AllocLoopEnds(v, d, lo, hi, t);
      assert EndedOf(v, t, d);
      match t
      case Went(w) =>
        AllocLoopWent(v, v, d, lo, lo, hi, t);
        assert Zeroed(v, w, d, lo, hi);
      case NoPage(w) =>
        AllocLoopShort(v, d, lo, lo, hi, t);
        DeallocCuts(w, d, newsz, oldsz);
        EditsThen(v, w, Dealloc(w, d, newsz, oldsz), d);
      case NoTable(w, mem) =>
        AllocLoopShort(v, d, lo, lo, hi, t);
        DeallocCuts(w, d, newsz, oldsz);
        StillStuck(v, w, Dealloc(w, d, newsz, oldsz), d, mem);
        Unstuck(v, Dealloc(w, d, newsz, oldsz), d, mem);
      case Remap =>
    }
  }

  // ---- setupkvm ----

  /** A page of the kernel part: its virtual page, the physical page behind it and the permissions. */
  datatype KPage = KPage(virt: nat, phys: int, perm: int)

  function EntryOf(p: KPage): Pte { Pte(p.phys, p.perm, false) }

  predicate KernelPages(kmap: seq<KPage>) {
    && (forall i :: 0 <= i < |kmap| ==> USER <= kmap[i].virt < ENTRIES)
    && forall i, j :: 0 <= i < j < |kmap| ==> kmap[i].virt != kmap[j].virt
  }

  /** The loop of setupkvm over the pages of the kernel part from the `i`-th on */
  function SetupLoop(v: Vm, d: int, kmap: seq<KPage>, i: nat): Turn
    decreases |kmap| - i
  {
    if i >= |kmap| then Went(v)
    else if !CanWalk(v, d, kmap[i].virt) then NoPage(v)
    else if (d, kmap[i].virt) in v.pte then Remap
    else SetupLoop(KernelTurn(v, d, kmap[i]), d, kmap, i + 1)
  }

  /** setupkvm; `kmap` lists the pages of the kernel part.  The second part is the directory, or 0. */
  function Setup(v: Vm, kmap: seq<KPage>): (Vm, int) {
    if v.free == [] then (v, 0)
    else
      var d := v.free[0];
      match SetupLoop(NewDir(v), d, kmap, 0)
      case Went(w) => (w, d)
      case NoPage(w) => (FreeDir(w, d), 0)
      case _ => (v, 0) // excluded: no page of the kernel part is listed twice
  }

  /** The entries of `d` are those of `v` and the kernel pages from the `i`-th on. */
  ghost predicate KernelAdded(v: Vm, w: Vm, d: int, kmap: seq<KPage>, i: nat) {
    && (forall a :: (d, a) in w.pte <==> (d, a) in v.pte || a in Rest(kmap, i))
    && (forall a :: (d, a) in v.pte ==> w.pte[(d, a)] == v.pte[(d, a)])
    && (forall j :: i <= j < |kmap| ==> EntryIn(w, d, kmap[j]))
  }

  /** The entry for a page of the kernel part is there, with its physical page and permissions. */
  predicate EntryIn(w: Vm, d: int, p: KPage) { (d, p.virt) in w.pte && w.pte[(d, p.virt)] == EntryOf(p) }

  function Rest(kmap: seq<KPage>, i: nat): set<int> { set j | i <= j < |kmap| :: kmap[j].virt }

  /** The tables that the kernel pages from the `i`-th on are in. */
  function KernelTables(kmap: seq<KPage>, i: nat): set<int> { set j | i <= j < |kmap| :: kmap[j].virt / NPDE }

  function KernelTurn(v: Vm, d: int, p: KPage): Vm
    requires CanWalk(v, d, p.virt)
  {
    MapKernel(Walked(v, d, p.virt), d, p.virt, EntryOf(p))
  }

  lemma MapKernelEdits(v: Vm, d: int, p: KPage)
    requires Inv(v) && d in v.dirs && USER <= p.virt < ENTRIES && CanWalk(v, d, p.virt) && (d, p.virt) !in v.pte
    ensures var w := KernelTurn(v, d, p);
      && Edits(v, w, d) && w.pte == v.pte[(d, p.virt) := EntryOf(p)] && Tables(w, d) == Tables(v, d) + {p.virt / NPDE}
      && |w.free| == |v.free| - (if (d, p.virt / NPDE) in v.pde then 0 else 1)
  {
    WalkedEdits(v, d, p.virt);
    var v1 := Walked(v, d, p.virt);
    MapKernelWorks(v1, d, p.virt, EntryOf(p));
    assert Hands(KernelTurn(v, d, p)) == Hands(v1) && Tables(KernelTurn(v, d, p), d) == Tables(v1, d);
    EditsThen(v, v1, KernelTurn(v, d, p), d);
  }

  lemma {:induction false} SetupLoopEdits(v: Vm, d: int, kmap: seq<KPage>, i: nat, t: Turn)
    requires Inv(v) && d in v.dirs && KernelPages(kmap) && i <= |kmap|
    requires forall j :: i <= j < |kmap| ==> (d, kmap[j].virt) !in v.pte
    requires t == SetupLoop(v, d, kmap, i)
    ensures (t.Went? || t.NoPage?) && Edits(v, t.v, d)
    decreases |kmap| - i
  {
    EditsNot(v, d);
    if i < |kmap| && CanWalk(v, d, kmap[i].virt) {
      MapKernelEdits(v, d, kmap[i]);
      var w := KernelTurn(v, d, kmap[i]);
      SetupLoopEdits(w, d, kmap, i + 1, t);
      EditsThen(v, w, t.v, d);
    }
  }

  /** The loop goes through exactly if there is a page for every table that is missing. */
  lemma {:induction false} SetupLoopNeeds(v: Vm, d: int, kmap: seq<KPage>, i: nat, t: Turn)
    requires Inv(v) && d in v.dirs && KernelPages(kmap) && i <= |kmap|
    requires forall j :: i <= j < |kmap| ==> (d, kmap[j].virt) !in v.pte
    requires t == SetupLoop(v, d, kmap, i)
    ensures var need := |KernelTables(kmap, i) - Tables(v, d)|;
      && (t.Went? <==> need <= |v.free|)
      && (t.Went? ==> |t.v.free| == |v.free| - need && Tables(t.v, d) == Tables(v, d) + KernelTables(kmap, i))
    decreases |kmap| - i
  {
    if i == |kmap| {
      assert KernelTables(kmap, i) == {} && KernelTables(kmap, i) - Tables(v, d) == {};
    } else {
      var a := kmap[i].virt;
      TablesIn(v, d, a / NPDE);
      KernelNext(kmap, i, Tables(v, d));
      if CanWalk(v, d, a) {
        MapKernelEdits(v, d, kmap[i]);
        SetupLoopNeeds(KernelTurn(v, d, kmap[i]), d, kmap, i + 1, t);
      }
    }
  }

  lemma AddedFirst(v: Vm, v1: Vm, w: Vm, d: int, kmap: seq<KPage>, i: nat)
    requires i < |kmap| && (d, kmap[i].virt) !in v.pte && v1.pte == v.pte[(d, kmap[i].virt) := EntryOf(kmap[i])]
    requires KernelAdded(v1, w, d, kmap, i + 1)
    ensures KernelAdded(v, w, d, kmap, i)
  {
    KernelNext(kmap, i, {});
  }

  lemma {:induction false} SetupLoopAdds(v: Vm, d: int, kmap: seq<KPage>, i: nat, t: Turn)
    requires Inv(v) && d in v.dirs && KernelPages(kmap) && i <= |kmap| && t == SetupLoop(v, d, kmap, i) && t.Went?
    requires forall j :: i <= j < |kmap| ==> (d, kmap[j].virt) !in v.pte
    ensures KernelAdded(v, t.v, d, kmap, i)
    decreases |kmap| - i
  {
    if i < |kmap| {
      MapKernelEdits(v, d, kmap[i]);
      SetupLoopAdds(KernelTurn(v, d, kmap[i]), d, kmap, i + 1, t);
      AddedFirst(v, KernelTurn(v, d, kmap[i]), t.v, d, kmap, i);
    }
  }

  lemma KernelNext(kmap: seq<KPage>, i: nat, have: set<int>)
    requires i < |kmap|
    ensures KernelTables(kmap, i) == {kmap[i].virt / NPDE} + KernelTables(kmap, i + 1)
    ensures Rest(kmap, i) == {kmap[i].virt as int} + Rest(kmap, i + 1)
    ensures have + KernelTables(kmap, i) == (have + {kmap[i].virt / NPDE}) + KernelTables(kmap, i + 1)
    ensures |KernelTables(kmap, i) - have| ==
      |KernelTables(kmap, i + 1) - (have + {kmap[i].virt / NPDE})| + if kmap[i].virt / NPDE in have then 0 else 1
  {
    var x, more := kmap[i].virt / NPDE, KernelTables(kmap, i + 1);
    assert KernelTables(kmap, i) == {x} + more;
    OneMore(x, more, have);
  }

  lemma OneMore(x: int, more: set<int>, have: set<int>)
    ensures |({x} + more) - have| == |more - (have + {x})| + if x in have then 0 else 1
  {
    if x in have {
      assert ({x} + more) - have == more - (have + {x});
    } else {
      assert ({x} + more) - have == {x} + (more - (have + {x}));
    }
  }

  /** The same directories, entries, owners and free pages, and the same contents of every page in use. */
  ghost predicate Same(v: Vm, v': Vm) {
    && v'.dirs == v.dirs && v'.pde == v.pde && v'.pte == v.pte
    && (forall p :: (p in v'.owner <==> p in v.owner) && (p in v'.free <==> p in v.free))
    && (forall p :: p in v.owner ==> v'.owner[p] == v.owner[p] && Content(v', p) == Content(v, p))
  }

  /** Work on a directory that was not there before, and is gone again, has changed nothing. */
  lemma Restored(v: Vm, v': Vm, d: int)
    requires Inv(v) && d !in v.dirs && Hands(v) == {} && Works(v, v', d) && Gone(v', d) && Hands(v') == {}
    ensures Same(v, v')
  {
    forall p
      ensures (p in v'.owner <==> p in v.owner) && (p in v'.free <==> p in v.free)
      ensures p in v.owner ==> v'.owner[p] == v.owner[p] && Content(v', p) == Content(v, p)
    {
      OwnerKept(v, v', d, p);
      FreeRest(v, p);
      FreeRest(v', p);
    }
    SameEntries(v, v', d);
  }

  lemma OwnerKept(v: Vm, v': Vm, d: int, p: int)
    requires Inv(v) && d !in v.dirs && Hands(v) == {} && Inv(v') && Outside(v, v', d) && Gone(v', d) && Hands(v') == {}
    ensures p in v'.owner <==> p in v.owner
    ensures p in v.owner ==> v'.owner[p] == v.owner[p] && Content(v', p) == Content(v, p)
  {
    if p in v.owner {
      assert Held(v, p) && p !in Hands(v);
      assert Kept(v, v', d, p);
    }
    if p in v'.owner {
      assert Held(v', p) && p !in Hands(v');
      assert Owns(v, p, v'.owner[p]);
    }
  }

  lemma SameEntries(v: Vm, v': Vm, d: int)
    requires Inv(v) && d !in v.dirs && Outside(v, v', d) && Gone(v', d)
    ensures v'.dirs == v.dirs && v'.pde == v.pde && v'.pte == v.pte
  {
    forall k ensures k in v'.pde <==> k in v.pde
      ensures k in v.pde ==> v'.pde[k] == v.pde[k]
    {
      PdeKept(v, v', d, k.0, k.1);
    }
    SameMap(v.pde, v'.pde);
    forall k ensures k in v'.pte <==> k in v.pte
      ensures k in v.pte ==> v'.pte[k] == v.pte[k]
    {
      PteKept(v, v', d, k.0, k.1);
    }
    SameMap(v.pte, v'.pte);
    forall e ensures e in v'.dirs <==> e in v.dirs {
    }
  }

  lemma SameMap<K, V>(m: map<K, V>, m': map<K, V>)
    requires forall k :: k in m ==> k in m' && m'[k] == m[k]
    requires forall k :: k in m' ==> k in m
    ensures m' == m
  {
  }

  lemma PdeKept(v: Vm, v': Vm, d: int, e: int, x: int)
    requires Inv(v) && d !in v.dirs && Outside(v, v', d) && Gone(v', d)
    ensures (e, x) in v'.pde <==> (e, x) in v.pde
    ensures (e, x) in v.pde ==> v'.pde[(e, x)] == v.pde[(e, x)]
  {
  }

  lemma PteKept(v: Vm, v': Vm, d: int, e: int, a: int)
    requires Inv(v) && d !in v.dirs && Outside(v, v', d) && Gone(v', d)
    ensures (e, a) in v'.pte <==> (e, a) in v.pte
    ensures (e, a) in v.pte ==> v'.pte[(e, a)] == v.pte[(e, a)]
  {
  }

  /** `d` is a new directory with the kernel part and nothing else, and nothing outside it changed. */
  ghost predicate FreshDir(v: Vm, w: Vm, d: int, kmap: seq<KPage>) {
    && d !in v.dirs && w.dirs == v.dirs + {d} && Works(v, w, d) && Hands(w) == Hands(v)
    && (forall a :: (d, a) in w.pte <==> a in Rest(kmap, 0)) && forall j :: 0 <= j < |kmap| ==> EntryIn(w, d, kmap[j])
  }

  lemma NewDirEmpty(v: Vm)
    requires Inv(v) && v.free != []
    ensures var w, d := NewDir(v), v.free[0];
      && Works(v, w, d) && d !in v.dirs && w.dirs == v.dirs + {d} && Hands(w) == Hands(v)
      && (forall a :: (d, a) !in w.pte) && Tables(w, d) == {}
  {
    NewDirWorks(v);
    TakeFree(v, DirOf);
    forall x ensures x !in Tables(NewDir(v), v.free[0]) { TablesIn(NewDir(v), v.free[0], x); }
  }

  /** Pages that setupkvm takes: the directory and the tables of the kernel part. */
  function SetupNeeds(kmap: seq<KPage>): nat { 1 + |KernelTables(kmap, 0)| }

  /** setupkvm succeeds exactly if there are that many free pages, and then it takes just those. */
  lemma SetupOkIff(v: Vm, kmap: seq<KPage>)
    requires Inv(v) && KernelPages(kmap) && 0 !in v.free
    ensures var (w, d) := Setup(v, kmap);
      && (d != 0 <==> SetupNeeds(kmap) <= |v.free|)
      && (d != 0 ==> |w.free| == |v.free| - SetupNeeds(kmap) && Tables(w, d) == KernelTables(kmap, 0))
  {
    if v.free != [] {
      var v1, d := NewDir(v), v.free[0];
      NewDirEmpty(v);
      var t := SetupLoop(v1, d, kmap, 0);
      SetupLoopNeeds(v1, d, kmap, 0, t);
      SetupLoopTurns(v1, d, kmap, 0, t);
      assert KernelTables(kmap, 0) - {} == KernelTables(kmap, 0);
    }
  }

  lemma SetupLoopTurns(v: Vm, d: int, kmap: seq<KPage>, i: nat, t: Turn)
    requires Inv(v) && d in v.dirs && KernelPages(kmap) && i <= |kmap|
    requires forall j :: i <= j < |kmap| ==> (d, kmap[j].virt) !in v.pte
    requires t == SetupLoop(v, d, kmap, i)
    ensures t.Went? || t.NoPage?
  {
    SetupLoopEdits(v, d, kmap, i, t);
  }

  lemma SetupFresh(v: Vm, kmap: seq<KPage>)
    requires Inv(v) && KernelPages(kmap) && Setup(v, kmap).1 != 0
    ensures FreshDir(v, Setup(v, kmap).0, Setup(v, kmap).1, kmap)
  {
    var v1, d := NewDir(v), v.free[0];
    NewDirEmpty(v);
    var t := SetupLoop(v1, d, kmap, 0);
    SetupLoopTurns(v1, d, kmap, 0, t);
    SetupLoopEdits(v1, d, kmap, 0, t);
    WorksThen(v, v1, t.v, d);
    SetupLoopAdds(v1, d, kmap, 0, t);
  }

  /** On failure everything is as it was. */
  lemma SetupFails(v: Vm, kmap: seq<KPage>)
    requires Inv(v) && KernelPages(kmap) && Hands(v) == {} && 0 !in v.free && Setup(v, kmap).1 == 0
    ensures Same(v, Setup(v, kmap).0) && Inv(Setup(v, kmap).0)
  {
    if v.free != [] {
      var v1, d := NewDir(v), v.free[0];
      NewDirEmpty(v);
      var t := SetupLoop(v1, d, kmap, 0);
      SetupLoopTurns(v1, d, kmap, 0, t);
      SetupLoopEdits(v1, d, kmap, 0, t);
      WorksThen(v, v1, t.v, d);
      Discarded(v, t.v, d);
    }
  }

  /** A directory that was begun after `v` and is freed again leaves everything as it was. */
  lemma Discarded(v: Vm, w: Vm, d: int)
    requires Inv(v) && d !in v.dirs && Hands(v) == {} && Works(v, w, d) && d in w.dirs && Hands(w) == {}
    ensures Same(v, FreeDir(w, d)) && Inv(FreeDir(w, d)) && Pages(FreeDir(w, d)) == Pages(v)
  {
    FreeDirGone(w, d);
    WorksThen(v, w, FreeDir(w, d), d);
    Restored(v, FreeDir(w, d), d);
  }

  // ---- copyuvm ----

  /** The loop of copyuvm from page `a` on */
  function CopyLoop(v: Vm, d0: int, d: int, a: nat, hi: nat): Turn
    decreases hi - a
  {
    if a >= hi then Went(v)
    else if (d0, a) !in v.pte then Absent
    else
      var t := CopyOne(v, d0, d, a);
      if t.Went? then CopyLoop(t.v, d0, d, a + 1, hi) else t
  }

  function CopyOne(v: Vm, d0: int, d: int, a: nat): Turn
    requires (d0, a) in v.pte
  {
    MapOne(v, d, a, Content(v, v.pte[(d0, a)].page), v.pte[(d0, a)].flags)
  }

  /** copyuvm: the directory, or 0 */
  function Copy(v: Vm, d0: int, sz: nat, kmap: seq<KPage>): Outcome {
    var (v1, d) := Setup(v, kmap);
    if d == 0 then Ret(v1, 0)
    else
      match CopyLoop(v1, d0, d, 0, RoundUp(sz))
      case Went(w) => Ret(w, d)
      case NoPage(w) => Ret(FreeDir(w, d), 0)
      case NoTable(w, mem) => Ret(FreeDir(Give(w, mem), d), 0)
      case Remap => RemapPanic
      case Absent => AbsentPanic
  }

  /** The first `n` pages of `d0`, as they were in `v`, are in fresh pages of `d` with the same flags and contents. */
  ghost predicate Copied(v: Vm, w: Vm, d0: int, d: int, n: int) {
    forall a :: 0 <= a < n ==> CopyOf(v, w, d0, d, a)
  }

  ghost predicate CopyOf(v: Vm, w: Vm, d0: int, d: int, a: int) {
    && (d0, a) in v.pte && (d, a) in w.pte && w.pte[(d, a)].flags == v.pte[(d0, a)].flags
    && w.pte[(d, a)].page !in v.owner && Content(w, w.pte[(d, a)].page) == Content(v, v.pte[(d0, a)].page)
  }

  /** A directory `d` is being made since `v0`.  The quantifier over the one directory keeps this a single fact in the
      proofs that carry it along. */
  ghost predicate Making(v0: Vm, v: Vm, d: int) {
    forall e | e == d :: MakingOf(v0, v, e)
  }

  ghost predicate MakingOf(v0: Vm, v: Vm, d: int) {
    Inv(v0) && d !in v0.dirs && Hands(v0) == {} && Works(v0, v, d) && d in v.dirs && Hands(v) == {}
  }

  lemma MakingThen(v0: Vm, v: Vm, w: Vm, d: int)
    requires Making(v0, v, d) && Edits(v, w, d)
    ensures Making(v0, w, d)
  {
    assert MakingOf(v0, v, d);
    WorksThen(v0, v, w, d);
  }

  lemma CopiedNext(v: Vm, v1: Vm, w: Vm, d0: int, d: int, a: nat)
    requires Making(v, v1, d) && d0 in v.dirs && a < USER && Copied(v, v1, d0, d, a) && (d0, a) in v1.pte
    requires NewPage(v1, w, d, a, Content(v1, v1.pte[(d0, a)].page), v1.pte[(d0, a)].flags)
    ensures Copied(v, w, d0, d, a + 1)
  {
    assert MakingOf(v, v1, d);
    SourceKept(v, v1, d0, d, a);
    FreshPage(v, v1, d, v1.free[0]);
    forall b | 0 <= b < a + 1 ensures CopyOf(v, w, d0, d, b) {
      if b < a {
        assert CopyOf(v, v1, d0, d, b);
        assert Owns(v1, v1.pte[(d, b)].page, DataOf(d, b));
      }
    }
  }

  lemma SourceKept(v: Vm, v1: Vm, d0: int, d: int, a: nat)
    requires Making(v, v1, d) && d0 in v.dirs && a < USER && (d0, a) in v1.pte
    ensures (d0, a) in v.pte && v1.pte[(d0, a)] == v.pte[(d0, a)]
    ensures Content(v1, v.pte[(d0, a)].page) == Content(v, v.pte[(d0, a)].page)
  {
    assert MakingOf(v, v1, d);
    assert (d0, a) in v.pte;
    assert Kept(v, v1, d, v.pte[(d0, a)].page);
  }

  /** A page that is free after some work on `d` was not owned before by anyone else. */
  lemma FreshPage(v: Vm, v1: Vm, d: int, p: int)
    requires Making(v, v1, d) && p !in v1.owner
    ensures p !in v.owner
  {
    assert MakingOf(v, v1, d);
    assert Kept(v, v1, d, p);
    assert p in v.owner ==> Held(v, p) && p !in Hands(v);
  }

  lemma CopyOneNext(v0: Vm, v: Vm, d0: int, d: int, a: nat)
    requires Making(v0, v, d) && d0 in v0.dirs && a < USER && (d0, a) in v.pte && CopyOne(v, d0, d, a).Went?
    ensures Making(v0, CopyOne(v, d0, d, a).v, d)
  {
    assert MakingOf(v0, v, d);
    var c, flags := Content(v, v.pte[(d0, a)].page), v.pte[(d0, a)].flags;
    MapOneEdits(v, d, a, c, flags);
    MakingThen(v0, v, CopyOne(v, d0, d, a).v, d);
  }

  lemma CopyOneCopies(v0: Vm, v: Vm, d0: int, d: int, a: nat)
    requires Making(v0, v, d) && d0 in v0.dirs && a < USER && (d0, a) in v.pte && CopyOne(v, d0, d, a).Went?
    requires Copied(v0, v, d0, d, a)
    ensures Copied(v0, CopyOne(v, d0, d, a).v, d0, d, a + 1)
  {
    assert MakingOf(v0, v, d);
    var c, flags := Content(v, v.pte[(d0, a)].page), v.pte[(d0, a)].flags;
    MapOneNew(v, d, a, c, flags);
    CopiedNext(v0, v, CopyOne(v, d0, d, a).v, d0, d, a);
  }

  lemma CopyTurn(v0: Vm, v: Vm, d0: int, d: int, a: nat, w: Vm)
    requires Making(v0, v, d) && d0 in v0.dirs && a < USER && (d0, a) in v.pte && CopyOne(v, d0, d, a) == Went(w)
    requires Copied(v0, v, d0, d, a)
    ensures Making(v0, w, d) && Copied(v0, w, d0, d, a + 1)
  {
    CopyOneNext(v0, v, d0, d, a);
    CopyOneCopies(v0, v, d0, d, a);
  }

  lemma {:induction false} CopyLoopWent(v0: Vm, v: Vm, d0: int, d: int, a: nat, hi: nat, t: Turn)
    requires Making(v0, v, d) && d0 in v0.dirs && a <= hi <= USER && Copied(v0, v, d0, d, a)
    requires t == CopyLoop(v, d0, d, a, hi) && t.Went?
    ensures Copied(v0, t.v, d0, d, hi)
    decreases hi - a
  {
    if a < hi {
      var w := CopyOne(v, d0, d, a).v;
      CopyTurn(v0, v, d0, d, a, w);
      CopyLoopWent(v0, w, d0, d, a + 1, hi, t);
    }
  }

  /** What is left of a turn once a page in hand is given back. */
  function Settled(t: Turn): Vm
    requires t.Went? || t.NoPage? || t.NoTable?
  {
    if t.NoTable? then Give(t.v, t.mem) else t.v
  }

  lemma CopyOneSettled(v0: Vm, v: Vm, d0: int, d: int, a: nat, t: Turn)
    requires Making(v0, v, d) && d0 in v0.dirs && a < USER && (d0, a) in v.pte && t == CopyOne(v, d0, d, a)
    requires t.NoPage? || t.NoTable?
    ensures Making(v0, Settled(t), d)
  {
    assert MakingOf(v0, v, d);
    MapOneNot(v, d, a, Content(v, v.pte[(d0, a)].page), v.pte[(d0, a)].flags);
    if t.NoTable? {
      Unstuck(v, t.v, d, t.mem);
      MakingThen(v0, v, Settled(t), d);
    }
  }

  /** However the loop ends, unless in a panic, the new directory is still being made. */
  lemma {:induction false} CopyLoopMaking(v0: Vm, v: Vm, d0: int, d: int, a: nat, hi: nat, t: Turn)
    requires Making(v0, v, d) && d0 in v0.dirs && a <= hi <= USER
    requires t == CopyLoop(v, d0, d, a, hi) && (t.Went? || t.NoPage? || t.NoTable?)
    ensures Making(v0, Settled(t), d)
    decreases hi - a
  {
    if a < hi {
      var one := CopyOne(v, d0, d, a);
      if one.Went? {
        CopyOneNext(v0, v, d0, d, a);
        CopyLoopMaking(v0, one.v, d0, d, a + 1, hi, t);
      } else {
        CopyOneSettled(v0, v, d0, d, a, one);
      }
    }
  }

  lemma CopyOneKeys(v: Vm, d0: int, d: int, a: nat, w: Vm)
    requires Live(v, d) && a < USER && (d0, a) in v.pte && CopyOne(v, d0, d, a) == Went(w)
    ensures Live(w, d) && forall b :: (d, b) in w.pte <==> (d, b) in v.pte || b == a
  {
    assert LiveOf(v, d);
    var c, flags := Content(v, v.pte[(d0, a)].page), v.pte[(d0, a)].flags;
    TurnEnds(v, d, a, c, flags, Went(w));
    MapOneNew(v, d, a, c, flags);
  }

  /** The new directory has the pages of the range and no others. */
  lemma {:induction false} CopyLoopKeys(v: Vm, d0: int, d: int, a: nat, hi: nat, t: Turn)
    requires Live(v, d) && a <= hi <= USER && t == CopyLoop(v, d0, d, a, hi) && t.Went?
    ensures forall b :: (d, b) in t.v.pte <==> (d, b) in v.pte || a <= b < hi
    decreases hi - a
  {
    if a < hi {
      var w := CopyOne(v, d0, d, a).v;
      CopyOneKeys(v, d0, d, a, w);
      CopyLoopKeys(w, d0, d, a + 1, hi, t);
    }
  }

  lemma SetupMaking(v: Vm, kmap: seq<KPage>)
    requires Inv(v) && KernelPages(kmap) && Hands(v) == {} && Setup(v, kmap).1 != 0
    ensures Making(v, Setup(v, kmap).0, Setup(v, kmap).1)
  {
    SetupFresh(v, kmap);
  }

  /** On success the new directory holds a copy of every page, with its flags, in pages that were free, and nothing
      else changed. */
  lemma CopyMeans(v: Vm, d0: int, sz: nat, kmap: seq<KPage>, o: Outcome)
    requires Inv(v) && KernelPages(kmap) && Hands(v) == {} && d0 in v.dirs && sz < KERNBASE
    requires o == Copy(v, d0, sz, kmap) && o.Ret? && o.r != 0
    ensures Making(v, o.v, o.r) && Copied(v, o.v, d0, o.r, RoundUp(sz))
  {
    SetupMaking(v, kmap);
    var (v1, d) := Setup(v, kmap);
    var t := CopyLoop(v1, d0, d, 0, RoundUp(sz));
    CopyLoopMaking(v, v1, d0, d, 0, RoundUp(sz), t);
    CopyLoopWent(v, v1, d0, d, 0, RoundUp(sz), t);
  }

  /** Its user part has exactly the pages below the size, its kernel part those of `kmap`. */
  lemma CopyKeys(v: Vm, d0: int, sz: nat, kmap: seq<KPage>, o: Outcome)
    requires Inv(v) && KernelPages(kmap) && Hands(v) == {} && d0 in v.dirs && sz < KERNBASE
    requires o == Copy(v, d0, sz, kmap) && o.Ret? && o.r != 0
    ensures forall a :: (o.r, a) in o.v.pte <==> 0 <= a < RoundUp(sz) || a in Rest(kmap, 0)
  {
    SetupFresh(v, kmap);
    var (v1, d) := Setup(v, kmap);
    CopyLoopKeys(v1, d0, d, 0, RoundUp(sz), CopyLoop(v1, d0, d, 0, RoundUp(sz)));
  }

  /** On failure everything is as it was. */
  lemma CopyFails(v: Vm, d0: int, sz: nat, kmap: seq<KPage>, o: Outcome)
    requires Inv(v) && KernelPages(kmap) && Hands(v) == {} && d0 in v.dirs && sz < KERNBASE && 0 !in v.free
    requires o == Copy(v, d0, sz, kmap) && o.Ret? && o.r == 0
    ensures Same(v, o.v) && Inv(o.v)
  {
    var (v1, d) := Setup(v, kmap);
    if d == 0 {
      SetupFails(v, kmap);
    } else {
      SetupMaking(v, kmap);
      var t := CopyLoop(v1, d0, d, 0, RoundUp(sz));
      CopyLoopMaking(v, v1, d0, d, 0, RoundUp(sz), t);
      assert MakingOf(v, Settled(t), d);
      Discarded(v, Settled(t), d);
    }
  }
}
