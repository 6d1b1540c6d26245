/** Directories whose user pages are exactly those below a size, and what allocuvm and deallocuvm make of them. */
module PageSizes {
  import opened PagePool
  import opened PageOps
  import opened PageNeeds

  /** The user pages of directory `d` are exactly those below `sz`. */
  ghost predicate Maps(v: Vm, d: int, sz: nat) {
    forall a :: 0 <= a < USER ==> ((d, a) in v.pte <==> a < RoundUp(sz))
  }

  /** Directory `e` has the same entries in both. */
  ghost predicate SameIn(v: Vm, w: Vm, e: int) { forall a :: (e, a) in w.pte <==> (e, a) in v.pte }

  lemma MapsSame(v: Vm, w: Vm, e: int, sz: nat)
    requires Maps(v, e, sz) && SameIn(v, w, e)
    ensures Maps(w, e, sz)
  {
  }

  lemma ElsewhereSame(v: Vm, w: Vm, d: int, e: int)
    requires Outside(v, w, d) && e != d
    ensures SameIn(v, w, e)
  {
    forall a ensures (e, a) in w.pte <==> (e, a) in v.pte {
    }
  }

  /** The size after growproc, where allocuvm or deallocuvm returned `r` */
  function NewSize(r: int, sz: nat): nat { if r > 0 then r else sz }

  /** allocuvm of a process that has exactly its pages: no panic, and afterwards it has exactly those of the new size,
      or still those of the old one. */
  lemma AllocTidy(v: Vm, d: int, sz: nat, newsz: nat, o: Outcome)
    requires Inv(v) && d in v.dirs && Hands(v) == {} && Maps(v, d, sz) && sz < newsz < KERNBASE
    requires o == Alloc(v, d, sz, newsz)
    ensures o.Ret? && Maps(o.v, d, NewSize(o.r, sz))
  {
    OneFirst(v, d, RoundUp(sz), RoundUp(newsz), true, RoundUp(newsz));
    AllocIff(v, d, sz, newsz);
    AllocMeans(v, d, sz, newsz);
    if o.r > 0 {
      ZeroedMaps(v, o.v, d, sz, newsz);
    } else {
      CutMaps(v, o.v, d, sz, newsz);
    }
  }

  lemma ZeroedMaps(v: Vm, w: Vm, d: int, sz: nat, newsz: nat)
    requires Maps(v, d, sz) && sz <= newsz && Zeroed(v, w, d, RoundUp(sz), RoundUp(newsz))
    ensures Maps(w, d, newsz)
  {
    forall a | 0 <= a < USER ensures (d, a) in w.pte <==> a < RoundUp(newsz) {
      if a < RoundUp(sz) || RoundUp(newsz) <= a {
        assert (d, a) in w.pte <==> (d, a) in Cut(w.pte, d, RoundUp(sz), RoundUp(newsz));
      }
    }
  }

  lemma CutMaps(v: Vm, w: Vm, d: int, sz: nat, newsz: nat)
    requires Maps(v, d, sz) && sz <= newsz && w.pte == Cut(v.pte, d, RoundUp(sz), RoundUp(newsz))
    ensures Maps(w, d, sz)
  {
  }

  lemma ShrinkMaps(v: Vm, w: Vm, d: int, sz: nat, newsz: nat)
    requires Maps(v, d, sz) && newsz <= sz && w.pte == Cut(v.pte, d, RoundUp(newsz), RoundUp(sz))
    ensures Maps(w, d, newsz)
  {
  }

  lemma AllocAnswers(v: Vm, d: int, sz: nat, newsz: nat, o: Outcome)
    requires Inv(v) && d in v.dirs && Hands(v) == {} && sz <= newsz < KERNBASE && o == Alloc(v, d, sz, newsz)
    ensures !o.AbsentPanic? && (o.Ret? ==> o.r == newsz || o.r == 0)
  {
    AllocMeans(v, d, sz, newsz);
  }

  lemma AllocOutside(v: Vm, d: int, sz: nat, newsz: nat, o: Outcome)
    requires Inv(v) && d in v.dirs && Hands(v) == {} && o == Alloc(v, d, sz, newsz) && o.Ret?
    ensures Outside(v, o.v, d)
  {
    AllocMeans(v, d, sz, newsz);
  }
}
