/** Physical pages: every page is on the free list once or owned by exactly one page-table position. */
module PagePool {

  const NPDE: nat := 1024     // entries of a directory, and of a table
  const USER: nat := 0x80000  // KERNBASE / PGSIZE

  /** What a page is used for: a directory, the table at entry `x` of directory `d`, user page `v` of directory `d`,
      fresh from kalloc and not mapped yet, or something else in the kernel. */
  datatype Pos = DirOf | TableOf(d: int, x: int) | DataOf(d: int, v: int) | InHand | Elsewhere

  /** A present page-table entry; those of the kernel part own nothing. */
  datatype Pte = Pte(page: int, flags: int, own: bool)

  /** The free list, the directories in use, the present directory entries by directory and index, the present table
      entries by directory and virtual page number, who owns each page that is not free, and page contents. */
  datatype Vm = Vm(free: seq<int>, dirs: set<int>, pde: map<(int, int), int>, pte: map<(int, int), Pte>,
                   owner: map<int, Pos>, data: map<int, int>)

  predicate Distinct(free: seq<int>) {
    forall i, j :: 0 <= i < j < |free| ==> free[i] != free[j]
  }

  /** Pages that are not free. */
  predicate Owns(v: Vm, p: int, pos: Pos) { p in v.owner && v.owner[p] == pos }

  ghost predicate FreeOk(v: Vm) {
    Distinct(v.free) && forall i :: 0 <= i < |v.free| ==> v.free[i] !in v.owner
  }

  ghost predicate PdeOk(v: Vm) {
    forall d, x :: (d, x) in v.pde ==> d in v.dirs && 0 <= x < NPDE && Owns(v, v.pde[(d, x)], TableOf(d, x))
  }

  ghost predicate PteOk(v: Vm) {
    forall d, a :: (d, a) in v.pte ==>
      && d in v.dirs && a >= 0 && (d, a / NPDE) in v.pde
      && (v.pte[(d, a)].own <==> a < USER)
      && (v.pte[(d, a)].own ==> Owns(v, v.pte[(d, a)].page, DataOf(d, a)))
  }

  /** The position that owns the page does hold it. */
  predicate Held(v: Vm, p: int)
    requires p in v.owner
  {
    match v.owner[p]
    case DirOf => p in v.dirs
    case TableOf(d, x) => (d, x) in v.pde && v.pde[(d, x)] == p
    case DataOf(d, a) => (d, a) in v.pte && v.pte[(d, a)].own && v.pte[(d, a)].page == p
    case InHand => true
    case Elsewhere => true
  }

  ghost predicate Inv(v: Vm) {
    && FreeOk(v) && PdeOk(v) && PteOk(v)
    && (forall d :: d in v.dirs ==> Owns(v, d, DirOf))
    && (forall p :: p in v.owner ==> Held(v, p))
  }

  /** All pages, free or owned. */
  function Pages(v: Vm): set<int> { FreeSet(v) + v.owner.Keys }

  function FreeSet(v: Vm): set<int> { set p | p in v.free }

  // ---- kalloc and kfree ----

  /** kalloc for use `pos` */
  function Take(v: Vm, pos: Pos): Vm
    requires v.free != []
  {
    v.(free := v.free[1..], owner := v.owner[v.free[0] := pos])
  }

  /** kfree: the page is filled with junk and put in front */
  function Give(v: Vm, p: int): Vm {
    v.(free := [p] + v.free, owner := v.owner - {p}, data := v.data[p := 1])
  }

  lemma TakeFree(v: Vm, pos: Pos)
    requires FreeOk(v) && v.free != []
    ensures FreeOk(Take(v, pos)) && v.free[0] !in v.owner && Pages(Take(v, pos)) == Pages(v)
    ensures FreeSet(Take(v, pos)) == FreeSet(v) - {v.free[0]}
  {
    var v' := Take(v, pos);
    assert v.free == [v.free[0]] + v'.free;
    forall i | 0 <= i < |v'.free| ensures v'.free[i] !in v'.owner { assert v'.free[i] == v.free[i + 1]; }
  }

  lemma GiveFree(v: Vm, p: int)
    requires FreeOk(v) && p in v.owner
    ensures FreeOk(Give(v, p)) && Pages(Give(v, p)) == Pages(v) && FreeSet(Give(v, p)) == FreeSet(v) + {p}
  {
    var v' := Give(v, p);
    forall i, j | 0 <= i < j < |v'.free| ensures v'.free[i] != v'.free[j] {
      assert v'.free[j] == v.free[j - 1];
      if i > 0 { assert v'.free[i] == v.free[i - 1]; }
    }
  }

  // ---- The changes that the functions of vm.c are made of ----

  /** A page from kalloc, in hand */
  lemma GrabInv(v: Vm)
    requires Inv(v) && v.free != []
    ensures Inv(Take(v, InHand))
  {
    TakeFree(v, InHand);
    var v' := Take(v, InHand);
    forall p | p in v'.owner ensures Held(v', p) { assert p != v.free[0] ==> Held(v, p); }
  }

  /** A page in hand given back */
  lemma ReturnInv(v: Vm, p: int)
    requires Inv(v) && Owns(v, p, InHand)
    ensures Inv(Give(v, p))
  {
    GiveFree(v, p);
    var v' := Give(v, p);
    forall q | q in v'.owner ensures Held(v', q) { assert Held(v, q); }
  }

  /** A new directory */
  function NewDir(v: Vm): Vm
    requires v.free != []
  {
    Take(v, DirOf).(dirs := v.dirs + {v.free[0]})
  }

  lemma NewDirInv(v: Vm)
    requires Inv(v) && v.free != []
    ensures Inv(NewDir(v)) && v.free[0] !in v.dirs
  {
    TakeFree(v, DirOf);
    var v' := NewDir(v);
    forall p | p in v'.owner ensures Held(v', p) { assert p != v.free[0] ==> Held(v, p); }
  }

  /** A new table for entry `x` of directory `d` */
  function NewTable(v: Vm, d: int, x: int): Vm
    requires v.free != []
  {
    Take(v, TableOf(d, x)).(pde := v.pde[(d, x) := v.free[0]])
  }

  lemma NewTableInv(v: Vm, d: int, x: int)
    requires Inv(v) && v.free != [] && d in v.dirs && 0 <= x < NPDE && (d, x) !in v.pde
    ensures Inv(NewTable(v, d, x))
  {
    TakeFree(v, TableOf(d, x));
    var v' := NewTable(v, d, x);
    forall p | p in v'.owner ensures Held(v', p) { assert p != v.free[0] ==> Held(v, p); }
  }

  /** A user entry for a page in hand */
  function MapUser(v: Vm, d: int, a: int, p: int, flags: int): Vm {
    v.(pte := v.pte[(d, a) := Pte(p, flags, true)], owner := v.owner[p := DataOf(d, a)])
  }

  lemma MapUserInv(v: Vm, d: int, a: int, p: int, flags: int)
    requires Inv(v) && d in v.dirs && 0 <= a < USER && (d, a / NPDE) in v.pde && (d, a) !in v.pte && Owns(v, p, InHand)
    ensures Inv(MapUser(v, d, a, p, flags)) && Pages(MapUser(v, d, a, p, flags)) == Pages(v)
  {
    var v' := MapUser(v, d, a, p, flags);
    forall q | q in v'.owner ensures Held(v', q) { assert q != p ==> Held(v, q); }
  }

  /** A kernel entry */
  function MapKernel(v: Vm, d: int, a: int, e: Pte): Vm {
    v.(pte := v.pte[(d, a) := e])
  }

  lemma MapKernelInv(v: Vm, d: int, a: int, e: Pte)
    requires Inv(v) && d in v.dirs && a >= USER && (d, a / NPDE) in v.pde && !e.own
    ensures Inv(MapKernel(v, d, a, e))
  {
    var v' := MapKernel(v, d, a, e);
    forall q | q in v'.owner ensures Held(v', q) { assert Held(v, q); }
  }

  /** A user page unmapped and freed */
  function Unmap(v: Vm, d: int, a: int): Vm
    requires (d, a) in v.pte
  {
    Give(v.(pte := v.pte - {(d, a)}), v.pte[(d, a)].page)
  }

  lemma UnmapInv(v: Vm, d: int, a: int)
    requires Inv(v) && (d, a) in v.pte && a < USER
    ensures Inv(Unmap(v, d, a)) && Pages(Unmap(v, d, a)) == Pages(v)
    ensures FreeSet(Unmap(v, d, a)) == FreeSet(v) + {v.pte[(d, a)].page}
  {
    var v1 := v.(pte := v.pte - {(d, a)});
    var p := v.pte[(d, a)].page;
    GiveFree(v1, p);
    var v' := Unmap(v, d, a);
    forall q | q in v'.owner ensures Held(v', q) { assert Held(v, q); }
  }

  /** The table at entry `x` freed, with the entries in it */
  function DropTable(v: Vm, d: int, x: int): Vm
    requires (d, x) in v.pde
  {
    Give(v.(pde := v.pde - {(d, x)}, pte := map k | k in v.pte && !(k.0 == d && k.1 / NPDE == x) :: v.pte[k]),
      v.pde[(d, x)])
  }

  lemma DropTableInv(v: Vm, d: int, x: int)
    requires Inv(v) && (d, x) in v.pde && forall a :: (d, a) in v.pte ==> a >= USER
    ensures Inv(DropTable(v, d, x)) && Pages(DropTable(v, d, x)) == Pages(v)
    ensures FreeSet(DropTable(v, d, x)) == FreeSet(v) + {v.pde[(d, x)]}
  {
    var v1 := v.(pde := v.pde - {(d, x)}, pte := map k | k in v.pte && !(k.0 == d && k.1 / NPDE == x) :: v.pte[k]);
    GiveFree(v1, v.pde[(d, x)]);
    var v' := DropTable(v, d, x);
    forall q | q in v'.owner ensures Held(v', q) { assert Held(v, q); }
  }

  /** A directory without entries freed */
  function DropDir(v: Vm, d: int): Vm {
    Give(v.(dirs := v.dirs - {d}), d)
  }

  lemma DropDirInv(v: Vm, d: int)
    requires Inv(v) && d in v.dirs && forall x :: (d, x) !in v.pde
    ensures Inv(DropDir(v, d)) && Pages(DropDir(v, d)) == Pages(v) && FreeSet(DropDir(v, d)) == FreeSet(v) + {d}
  {
    GiveFree(v.(dirs := v.dirs - {d}), d);
    var v' := DropDir(v, d);
    forall q | q in v'.owner ensures Held(v', q) { assert Held(v, q); }
  }

  /** Contents of a page */
  function Filled(v: Vm, p: int, c: int): Vm { v.(data := v.data[p := c]) }

  lemma FilledInv(v: Vm, p: int, c: int)
    requires Inv(v)
    ensures Inv(Filled(v, p, c)) && Pages(Filled(v, p, c)) == Pages(v)
  {
    var v' := Filled(v, p, c);
    forall q | q in v'.owner ensures Held(v', q) { assert Held(v, q); }
  }

  // ---- Work on one directory leaves the rest alone ----

  /** A page of directory `d`, or in the hand of the code that works on it. */
  predicate Mine(v: Vm, p: int, d: int)
    requires p in v.owner
  {
    match v.owner[p]
    case DirOf => p == d
    case TableOf(e, _) => e == d
    case DataOf(e, _) => e == d
    case InHand => true
    case Elsewhere => false
  }

  /** Page `p` belongs elsewhere, and its use and contents are the same in both. */
  ghost predicate Kept(v: Vm, v': Vm, d: int, p: int) {
    p in v.owner && !Mine(v, p, d) ==>
      Owns(v', p, v.owner[p]) && (p in v.data <==> p in v'.data) && (p in v.data ==> v'.data[p] == v.data[p])
  }

  ghost predicate Outside(v: Vm, v': Vm, d: int) {
    && (forall e :: e != d ==> (e in v'.dirs <==> e in v.dirs))
    && (forall e, x :: e != d ==>
        ((e, x) in v'.pde <==> (e, x) in v.pde) && ((e, x) in v.pde ==> v'.pde[(e, x)] == v.pde[(e, x)]))
    && (forall e, a :: e != d ==>
        ((e, a) in v'.pte <==> (e, a) in v.pte) && ((e, a) in v.pte ==> v'.pte[(e, a)] == v.pte[(e, a)]))
    && (forall p :: Kept(v, v', d, p))
    && (forall p :: p in v'.owner && !Mine(v', p, d) ==> Owns(v, p, v'.owner[p]))
  }

  lemma OutsideThen(v: Vm, v1: Vm, v2: Vm, d: int)
    requires Outside(v, v1, d) && Outside(v1, v2, d)
    ensures Outside(v, v2, d)
  {
    forall p ensures Kept(v, v2, d, p) { assert Kept(v, v1, d, p) && Kept(v1, v2, d, p); }
  }

  lemma TakeOutside(v: Vm, pos: Pos, d: int)
    requires FreeOk(v) && v.free != []
    requires (pos == InHand || (pos.TableOf? && pos.d == d) || (pos == DirOf && d == v.free[0]))
    ensures Outside(v, Take(v, pos), d)
  {
    TakeFree(v, pos);
  }

  lemma GiveOutside(v: Vm, p: int, d: int)
    requires p in v.owner && Mine(v, p, d)
    ensures Outside(v, Give(v, p), d)
  {
  }

  /** Changes to the entries of `d` alone. */
  lemma EntriesOutside(v: Vm, v': Vm, d: int)
    requires v'.dirs == v.dirs || v'.dirs == v.dirs - {d} || v'.dirs == v.dirs + {d}
    requires v'.owner == v.owner && v'.data == v.data
    requires forall e, x :: e != d ==>
      ((e, x) in v'.pde <==> (e, x) in v.pde) && ((e, x) in v.pde ==> v'.pde[(e, x)] == v.pde[(e, x)])
    requires forall e, a :: e != d ==>
      ((e, a) in v'.pte <==> (e, a) in v.pte) && ((e, a) in v.pte ==> v'.pte[(e, a)] == v.pte[(e, a)])
    ensures Outside(v, v', d)
  {
  }

  lemma MapUserOutside(v: Vm, d: int, a: int, p: int, flags: int)
    requires Owns(v, p, InHand)
    ensures Outside(v, MapUser(v, d, a, p, flags), d)
  {
  }

  lemma FilledOutside(v: Vm, p: int, c: int, d: int)
    requires Owns(v, p, InHand)
    ensures Outside(v, Filled(v, p, c), d)
  {
  }
}
