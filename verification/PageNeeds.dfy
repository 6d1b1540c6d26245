/** How many free pages allocuvm and copyuvm need, and with that exactly when they succeed, fail and panic. */
module PageNeeds {
  import opened PagePool
  import opened PageOps

  /** The tables that user pages `a`, ..., `hi - 1` are in. */
  function TablesOf(a: int, hi: int): set<int> { set b | a <= b < hi :: b / NPDE }

  /** Free pages that mapping user pages `a`, ..., `hi - 1` takes in a directory with tables `have`: one for each page
      and one for each table that is missing. */
  function Need(have: set<int>, a: int, hi: int): nat
    requires a <= hi
  {
    hi - a + |TablesOf(a, hi) - have|
  }

  lemma NeedNone(have: set<int>, a: int)
    ensures Need(have, a, a) == 0
  {
    assert TablesOf(a, a) - have == {};
  }

  lemma NeedFirst(have: set<int>, a: int, hi: int)
    requires a < hi
    ensures Need(have, a, hi) == Need(have + {a / NPDE}, a + 1, hi) + if a / NPDE in have then 1 else 2
  {
    assert TablesOf(a, hi) == {a / NPDE} + TablesOf(a + 1, hi);
    OneMore(a / NPDE, TablesOf(a + 1, hi), have);
  }

  /** `m` is the first of user pages `a`, ..., `hi - 1` of `d` that is mapped, or with `here` false the first that is
      not; `hi` if there is none. */
  predicate FirstAt(v: Vm, d: int, a: nat, hi: nat, here: bool, m: nat) {
    a <= m <= hi && (m < hi ==> ((d, m) in v.pte) == here) && forall b :: a <= b < m ==> ((d, b) in v.pte) == !here
  }

  function First(v: Vm, d: int, a: nat, hi: nat, here: bool): (m: nat)
    requires a <= hi
    ensures FirstAt(v, d, a, hi, here, m)
    decreases hi - a
  {
    if a == hi || ((d, a) in v.pte) == here then a else First(v, d, a + 1, hi, here)
  }

  lemma OneFirst(v: Vm, d: int, a: nat, hi: nat, here: bool, m: nat)
    requires a <= hi && FirstAt(v, d, a, hi, here, m)
    ensures m == First(v, d, a, hi, here)
  {
    var r := First(v, d, a, hi, here);
    assert a <= m < r ==> ((d, m) in v.pte) == !here;
    assert a <= r < m ==> ((d, r) in v.pte) == !here;
  }

  // ---- allocuvm ----

  lemma CostsIs(v: Vm, d: int, a: nat)
    ensures Costs(v, d, a) == if a / NPDE in Tables(v, d) then 1 else 2
  {
    TablesIn(v, d, a / NPDE);
  }

  /** allocuvm's loop is at page `a`, and `m` is the first mapped page.  As with PageOps.Making, the quantifier keeps
      this a single fact. */
  ghost predicate Allocating(v: Vm, d: int, a: nat, hi: nat, m: nat) {
    forall e | e == d :: AllocatingOf(v, e, a, hi, m)
  }

  ghost predicate AllocatingOf(v: Vm, d: int, a: nat, hi: nat, m: nat) {
    Inv(v) && d in v.dirs && hi <= USER && FirstAt(v, d, a, hi, true, m)
  }

  lemma AllocTurnIff(v: Vm, d: int, a: nat, hi: nat, m: nat)
    requires Allocating(v, d, a, hi, m) && a < m
    ensures var t := MapOne(v, d, a, 0, 6);
      && !t.Remap? && (t.Went? <==> Costs(v, d, a) <= |v.free|)
      && (t.Went? ==> && Allocating(t.v, d, a + 1, hi, m) && Tables(t.v, d) == Tables(v, d) + {a / NPDE}
                      && |t.v.free| == |v.free| - Costs(v, d, a))
  {
    assert AllocatingOf(v, d, a, hi, m);
    MapOneNot(v, d, a, 0, 6);
    if MapOne(v, d, a, 0, 6).Went? {
      MapOneEdits(v, d, a, 0, 6);
      MapOneNew(v, d, a, 0, 6);
    }
  }

  /** The turn at the first mapped page */
  lemma AllocHits(v: Vm, d: int, a: nat, hi: nat)
    requires Allocating(v, d, a, hi, a) && a < hi
    ensures var t := MapOne(v, d, a, 0, 6); !t.Went? && (t.Remap? <==> v.free != [])
  {
    assert AllocatingOf(v, d, a, hi, a);
    MapOneNot(v, d, a, 0, 6);
  }

  lemma {:induction false} AllocLoopIff(v: Vm, d: int, a: nat, hi: nat, m: nat, t: Turn)
    requires Allocating(v, d, a, hi, m) && a <= m <= hi && t == AllocLoop(v, d, a, hi)
    ensures t.Went? <==> m == hi && Need(Tables(v, d), a, m) <= |v.free|
    ensures t.Remap? <==> m < hi && Need(Tables(v, d), a, m) < |v.free|
    decreases hi - a
  {
    if a == m {
      NeedNone(Tables(v, d), a);
      if a < hi { AllocHits(v, d, a, hi); }
    } else {
      NeedFirst(Tables(v, d), a, m);
      CostsIs(v, d, a);
      AllocTurnIff(v, d, a, hi, m);
      if MapOne(v, d, a, 0, 6).Went? { AllocLoopIff(MapOne(v, d, a, 0, 6).v, d, a + 1, hi, m, t); }
    }
  }

  lemma {:induction false} AllocLoopTakes(v: Vm, d: int, a: nat, hi: nat, t: Turn)
    requires Allocating(v, d, a, hi, hi) && a <= hi && t == AllocLoop(v, d, a, hi) && t.Went?
    ensures Tables(t.v, d) == Tables(v, d) + TablesOf(a, hi) && |t.v.free| == |v.free| - Need(Tables(v, d), a, hi)
    decreases hi - a
  {
    if a == hi {
      NeedNone(Tables(v, d), a);
      assert TablesOf(a, hi) == {};
    } else {
      NeedFirst(Tables(v, d), a, hi);
      CostsIs(v, d, a);
      AllocTurnIff(v, d, a, hi, hi);
      AllocLoopTakes(MapOne(v, d, a, 0, 6).v, d, a + 1, hi, t);
      TablesFirst(Tables(v, d), a, hi);
    }
  }

  lemma TablesFirst(have: set<int>, a: int, hi: int)
    requires a < hi
    ensures have + TablesOf(a, hi) == (have + {a / NPDE}) + TablesOf(a + 1, hi)
  {
    assert TablesOf(a, hi) == {a / NPDE} + TablesOf(a + 1, hi);
  }

  /** Two stretches need what the whole needs. */
  lemma NeedJoin(have: set<int>, a: int, b: int, c: int)
    requires a <= b <= c
    ensures Need(have, a, c) == Need(have, a, b) + Need(have + TablesOf(a, b), b, c)
    ensures have + TablesOf(a, c) == (have + TablesOf(a, b)) + TablesOf(b, c)
  {
    assert TablesOf(a, c) == TablesOf(a, b) + TablesOf(b, c);
    var first, rest := TablesOf(a, b) - have, TablesOf(b, c) - (have + TablesOf(a, b));
    assert TablesOf(a, c) - have == first + rest && first !! rest;
  }

  /** What a successful allocuvm takes. */
  lemma AllocTakes(v: Vm, d: int, oldsz: nat, newsz: nat, o: Outcome)
    requires Inv(v) && d in v.dirs && oldsz <= newsz < KERNBASE && newsz > 0
    requires o == Alloc(v, d, oldsz, newsz) && o.Ret? && o.r == newsz
    ensures RoundUp(oldsz) <= RoundUp(newsz)
    ensures Tables(o.v, d) == Tables(v, d) + TablesOf(RoundUp(oldsz), RoundUp(newsz))
    ensures |o.v.free| == |v.free| - Need(Tables(v, d), RoundUp(oldsz), RoundUp(newsz))
  {
    AllocIff(v, d, oldsz, newsz);
    var lo, hi := RoundUp(oldsz), RoundUp(newsz);
    assert AllocatingOf(v, d, lo, hi, hi);
    AllocLoopTakes(v, d, lo, hi, AllocLoop(v, d, lo, hi));
  }

  /** allocuvm gives the new size exactly if nothing in the range is mapped and there are enough pages; it panics
      exactly if there are pages enough to reach one that is mapped, and one more. */
  lemma AllocIff(v: Vm, d: int, oldsz: nat, newsz: nat)
    requires Inv(v) && d in v.dirs && oldsz <= newsz < KERNBASE && newsz > 0
    ensures var lo, hi, o := RoundUp(oldsz), RoundUp(newsz), Alloc(v, d, oldsz, newsz);
      var m := First(v, d, lo, hi, true);
      && (o.Ret? && o.r == newsz <==> m == hi && Need(Tables(v, d), lo, hi) <= |v.free|)
      && (o.RemapPanic? <==> m < hi && Need(Tables(v, d), lo, m) < |v.free|)
  {
    var lo, hi := RoundUp(oldsz), RoundUp(newsz);
    assert AllocatingOf(v, d, lo, hi, First(v, d, lo, hi, true));
    AllocLoopIff(v, d, lo, hi, First(v, d, lo, hi, true), AllocLoop(v, d, lo, hi));
  }

  // ---- copyuvm ----

  /** Nothing of the range is mapped in the new directory yet. */
  ghost predicate Clear(v: Vm, d: int, a: nat) { forall b :: a <= b < USER ==> (d, b) !in v.pte }

  /** copyuvm's loop is at page `a`, and `m` is the first missing page. */
  ghost predicate Copying(v: Vm, d0: int, d: int, a: nat, hi: nat, m: nat) {
    forall e | e == d :: CopyingOf(v, d0, e, a, hi, m)
  }

  ghost predicate CopyingOf(v: Vm, d0: int, d: int, a: nat, hi: nat, m: nat) {
    Inv(v) && d in v.dirs && d0 != d && hi <= USER && Clear(v, d, a) && FirstAt(v, d0, a, hi, false, m)
  }

  lemma CopyTurnIff(v: Vm, d0: int, d: int, a: nat, hi: nat, m: nat)
    requires Copying(v, d0, d, a, hi, m) && a < m && (d0, a) in v.pte
    ensures var t := CopyOne(v, d0, d, a);
      && !t.Remap? && !t.Absent? && (t.Went? <==> Costs(v, d, a) <= |v.free|)
      && (t.Went? ==> && Copying(t.v, d0, d, a + 1, hi, m) && Tables(t.v, d) == Tables(v, d) + {a / NPDE}
                      && |t.v.free| == |v.free| - Costs(v, d, a))
  {
    assert CopyingOf(v, d0, d, a, hi, m);
    var c, flags := Content(v, v.pte[(d0, a)].page), v.pte[(d0, a)].flags;
    MapOneNot(v, d, a, c, flags);
    if CopyOne(v, d0, d, a).Went? {
      MapOneEdits(v, d, a, c, flags);
      MapOneNew(v, d, a, c, flags);
    }
  }

  lemma CopyHere(v: Vm, d0: int, d: int, a: nat, hi: nat, m: nat)
    requires Copying(v, d0, d, a, hi, m) && a < hi
    ensures a <= m && ((d0, a) in v.pte <==> a < m)
  {
    assert CopyingOf(v, d0, d, a, hi, m);
  }

  lemma {:induction false} CopyLoopIff(v: Vm, d0: int, d: int, a: nat, hi: nat, m: nat, t: Turn)
    requires Copying(v, d0, d, a, hi, m) && a <= m <= hi && t == CopyLoop(v, d0, d, a, hi)
    ensures t.Went? <==> m == hi && Need(Tables(v, d), a, m) <= |v.free|
    ensures t.Absent? <==> m < hi && Need(Tables(v, d), a, m) <= |v.free|
    ensures !t.Remap?
    decreases hi - a
  {
    if a < hi { CopyHere(v, d0, d, a, hi, m); }
    if a == m {
      NeedNone(Tables(v, d), a);
    } else {
      NeedFirst(Tables(v, d), a, m);
      CostsIs(v, d, a);
      CopyTurnIff(v, d0, d, a, hi, m);
      if CopyOne(v, d0, d, a).Went? { CopyLoopIff(CopyOne(v, d0, d, a).v, d0, d, a + 1, hi, m, t); }
    }
  }

  /** Pages that copyuvm takes for the pages below `m`: those of setupkvm, the copies and their tables. */
  function CopyNeeds(m: nat, kmap: seq<KPage>): nat { SetupNeeds(kmap) + Need({}, 0, m) }

  /** The kernel part has none of the tables that user pages are in. */
  lemma ApartTables(kmap: seq<KPage>, m: nat)
    requires KernelPages(kmap) && m <= USER
    ensures Need(KernelTables(kmap, 0), 0, m) == Need({}, 0, m)
  {
    forall x | x in TablesOf(0, m) ensures x !in KernelTables(kmap, 0) {
    }
    assert TablesOf(0, m) - KernelTables(kmap, 0) == TablesOf(0, m) - {};
  }

  lemma CopyStart(v: Vm, d0: int, hi: nat, kmap: seq<KPage>, m: nat)
    requires Inv(v) && KernelPages(kmap) && d0 in v.dirs && Setup(v, kmap).1 != 0 && FirstAt(v, d0, 0, hi, false, m)
    requires hi <= USER
    ensures var (w, d) := Setup(v, kmap); Copying(w, d0, d, 0, hi, m)
  {
    SetupFresh(v, kmap);
  }

  /** The loop's end, counted in the pages that were free before setupkvm. */
  lemma CopyLoopEnds(v: Vm, d0: int, hi: nat, kmap: seq<KPage>, m: nat, t: Turn)
    requires Inv(v) && KernelPages(kmap) && d0 in v.dirs && hi <= USER && 0 !in v.free && Setup(v, kmap).1 != 0
    requires FirstAt(v, d0, 0, hi, false, m) && t == CopyLoop(Setup(v, kmap).0, d0, Setup(v, kmap).1, 0, hi)
    ensures t.Went? <==> m == hi && CopyNeeds(m, kmap) <= |v.free|
    ensures t.Absent? <==> m < hi && CopyNeeds(m, kmap) <= |v.free|
    ensures !t.Remap?
  {
    SetupOkIff(v, kmap);
    CopyStart(v, d0, hi, kmap, m);
    CopyLoopIff(Setup(v, kmap).0, d0, Setup(v, kmap).1, 0, hi, m, t);
    ApartTables(kmap, m);
  }

  /** copyuvm succeeds exactly if every page below the size is there and there are enough free pages; it panics exactly
      if one is missing and the pages suffice to reach it. */
  lemma CopyIff(v: Vm, d0: int, sz: nat, kmap: seq<KPage>, o: Outcome)
    requires Inv(v) && KernelPages(kmap) && d0 in v.dirs && sz < KERNBASE && 0 !in v.free && o == Copy(v, d0, sz, kmap)
    ensures var m := First(v, d0, 0, RoundUp(sz), false);
      && (o.Ret? && o.r != 0 <==> m == RoundUp(sz) && CopyNeeds(m, kmap) <= |v.free|)
      && (o.AbsentPanic? <==> m < RoundUp(sz) && CopyNeeds(m, kmap) <= |v.free|) && !o.RemapPanic?
  {
    var m := First(v, d0, 0, RoundUp(sz), false);
    if Setup(v, kmap).1 == 0 {
      SetupOkIff(v, kmap);
    } else {
      CopyLoopEnds(v, d0, RoundUp(sz), kmap, m, CopyLoop(Setup(v, kmap).0, d0, Setup(v, kmap).1, 0, RoundUp(sz)));
    }
  }
}
