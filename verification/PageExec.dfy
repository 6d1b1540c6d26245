/** exec's new image: a directory with the pages of the segments and two for the stack, and what it takes. */
module PageExec {
  import opened PagePool
  import opened PageOps
  import opened PageNeeds
  import opened PageSizes

  // ---- clearpteu ----

  /** Flags without PTE_U */
  function NoUser(flags: int): int { if flags / 4 % 2 == 1 then flags - 4 else flags }

  function ClearUser(v: Vm, d: int, a: int): Vm {
    if (d, a) in v.pte then v.(pte := v.pte[(d, a) := v.pte[(d, a)].(flags := NoUser(v.pte[(d, a)].flags))]) else v
  }

  lemma ClearEdits(v: Vm, d: int, a: int)
    requires Inv(v)
    ensures Edits(v, ClearUser(v, d, a), d) && SameIn(v, ClearUser(v, d, a), d) && ClearUser(v, d, a).pde == v.pde
  {
    EditsNot(v, d);
    var w := ClearUser(v, d, a);
    if (d, a) in v.pte {
      forall p | p in w.owner ensures Held(w, p) { assert Held(v, p); }
      EntriesOutside(v, w, d);
    }
  }

  // ---- The segments ----

  /** The loop over the program headers, where `segs` has the end of each segment to load: the size, or -1 when memory
      ran out or a size came out as 0 */
  function Load(v: Vm, d: int, sz: nat, segs: seq<nat>): Outcome
    decreases |segs|
  {
    if segs == [] then Ret(v, sz)
    else
      match Alloc(v, d, sz, segs[0])
      case Ret(w, r) => if r <= 0 then Ret(w, -1) else Load(w, d, r, segs[1..])
      case RemapPanic => RemapPanic
      case AbsentPanic => AbsentPanic
  }

  /** The two pages at the next page boundary, of which the first is made inaccessible */
  function AddStack(v: Vm, d: int, sz: nat): Outcome {
    match Alloc(v, d, RoundUp(sz) * PGSIZE, RoundUp(sz) * PGSIZE + 2 * PGSIZE)
    case Ret(w, r) => if r <= 0 then Ret(w, -1) else Ret(ClearUser(w, d, RoundUp(sz)), r)
    case RemapPanic => RemapPanic
    case AbsentPanic => AbsentPanic
  }

  /** A directory that maps exactly its size, and what a call made of it. */
  ghost predicate Sized(v: Vm, d: int, sz: nat) { forall e | e == d :: SizedOf(v, e, sz) }

  ghost predicate SizedOf(v: Vm, d: int, sz: nat) {
    Inv(v) && d in v.dirs && Hands(v) == {} && Maps(v, d, sz) && sz < KERNBASE
  }

  ghost predicate Grown(v: Vm, d: int, o: Outcome) { forall e | e == d :: GrownOf(v, e, o) }

  /** It returned, after work on `d` alone; where it succeeded, `d` maps exactly the size. */
  ghost predicate GrownOf(v: Vm, d: int, o: Outcome) {
    o.Ret? && Edits(v, o.v, d) && (o.r >= 0 ==> SizedOf(o.v, d, o.r))
  }

  lemma GrownThen(v: Vm, v1: Vm, d: int, r: int, o: Outcome)
    requires Grown(v, d, Ret(v1, r)) && Grown(v1, d, o)
    ensures Grown(v, d, o)
  {
    assert GrownOf(v, d, Ret(v1, r)) && GrownOf(v1, d, o);
    EditsThen(v, v1, o.v, d);
  }

  lemma GrownSized(v: Vm, d: int, o: Outcome)
    requires Grown(v, d, o)
    ensures o.Ret? && (o.r >= 0 ==> Sized(o.v, d, o.r))
  {
    assert GrownOf(v, d, o);
  }

  lemma GrownFails(v: Vm, v1: Vm, d: int, r: int)
    requires Grown(v, d, Ret(v1, r))
    ensures Grown(v, d, Ret(v1, -1))
  {
    assert GrownOf(v, d, Ret(v1, r));
  }

  lemma GrownNot(v: Vm, d: int, sz: nat)
    requires Sized(v, d, sz)
    ensures Grown(v, d, Ret(v, sz))
  {
    assert SizedOf(v, d, sz);
    EditsNot(v, d);
  }

  /** allocuvm in a directory that maps exactly its size: 0 is a failure, everything else the new size. */
  lemma AllocGrown(v: Vm, d: int, sz: nat, newsz: nat, o: Outcome)
    requires Sized(v, d, sz) && o == Alloc(v, d, sz, newsz)
    ensures o.Ret? && Grown(v, d, if o.r > 0 then o else Ret(o.v, -1)) && (o.r > 0 ==> Sized(o.v, d, o.r))
  {
    assert SizedOf(v, d, sz);
    EditsNot(v, d);
    AllocMeans(v, d, sz, newsz);
    if sz < newsz < KERNBASE { AllocTidy(v, d, sz, newsz, o); }
  }

  lemma {:induction false} LoadGrown(v: Vm, d: int, sz: nat, segs: seq<nat>, o: Outcome)
    requires Sized(v, d, sz) && o == Load(v, d, sz, segs)
    ensures Grown(v, d, o)
    decreases |segs|
  {
    if segs == [] {
      GrownNot(v, d, sz);
    } else {
      var one := Alloc(v, d, sz, segs[0]);
      AllocGrown(v, d, sz, segs[0], one);
      if one.r > 0 {
        LoadGrown(one.v, d, one.r, segs[1..], o);
        GrownThen(v, one.v, d, one.r, o);
      }
    }
  }

  lemma BoundarySized(v: Vm, d: int, sz: nat)
    requires Sized(v, d, sz)
    ensures RoundUp(RoundUp(sz) * PGSIZE) == RoundUp(sz)
    ensures RoundUp(sz) * PGSIZE < KERNBASE ==> Sized(v, d, RoundUp(sz) * PGSIZE)
  {
    assert SizedOf(v, d, sz);
  }

  lemma ClearGrown(v: Vm, w: Vm, d: int, a: int, r: int)
    requires Grown(v, d, Ret(w, r)) && r > 0
    ensures Grown(v, d, Ret(ClearUser(w, d, a), r))
  {
    assert GrownOf(v, d, Ret(w, r));
    ClearEdits(w, d, a);
    EditsThen(v, w, ClearUser(w, d, a), d);
    MapsSame(w, ClearUser(w, d, a), d, r);
  }

  lemma StackGrown(v: Vm, d: int, sz: nat, o: Outcome)
    requires Sized(v, d, sz) && o == AddStack(v, d, sz)
    ensures Grown(v, d, o)
  {
    BoundarySized(v, d, sz);
    var base := RoundUp(sz) * PGSIZE;
    if base < KERNBASE {
      var one := Alloc(v, d, base, base + 2 * PGSIZE);
      AllocGrown(v, d, base, base + 2 * PGSIZE, one);
      if one.r > 0 { ClearGrown(v, one.v, d, RoundUp(sz), one.r); }
    } else {
      GrownNot(v, d, sz);
      GrownFails(v, v, d, sz);
    }
  }

  /** Segments and stack */
  function Image(v: Vm, d: int, segs: seq<nat>): Outcome {
    WithStack(d, Load(v, d, 0, segs))
  }

  function WithStack(d: int, one: Outcome): Outcome {
    if !one.Ret? then one else if one.r < 0 then Ret(one.v, -1) else AddStack(one.v, d, one.r)
  }

  /** The image of a new directory is made without a panic, by work on that directory alone, and maps exactly the size
      that comes out. */
  lemma ImageGrown(v: Vm, d: int, segs: seq<nat>, o: Outcome)
    requires Sized(v, d, 0) && o == Image(v, d, segs)
    ensures Grown(v, d, o)
  {
    var one := Load(v, d, 0, segs);
    LoadGrown(v, d, 0, segs, one);
    GrownSized(v, d, one);
    if one.r >= 0 {
      StackGrown(one.v, d, one.r, o);
      GrownThen(v, one.v, d, one.r, o);
    } else {
      GrownFails(v, one.v, d, one.r);
    }
  }

  // ---- What it takes ----

  /** The size after the segments, if all goes well */
  function EndOf(sz: nat, segs: seq<nat>): nat
    decreases |segs|
  {
    if segs == [] then sz else EndOf(if segs[0] < sz then sz else segs[0], segs[1..])
  }

  /** Every segment ends below the kernel, and the first one not at 0. */
  predicate SegsOk(sz: nat, segs: seq<nat>) {
    (forall i :: 0 <= i < |segs| ==> segs[i] < KERNBASE) && (segs != [] && sz == 0 ==> segs[0] > 0)
  }

  lemma {:induction false} EndAbove(sz: nat, segs: seq<nat>)
    ensures EndOf(sz, segs) >= sz && RoundUp(EndOf(sz, segs)) >= RoundUp(sz)
    decreases |segs|
  {
    if segs != [] { EndAbove(if segs[0] < sz then sz else segs[0], segs[1..]); }
  }

  lemma SegsRest(sz: nat, segs: seq<nat>)
    requires segs != [] && segs[0] < KERNBASE && (sz > 0 || segs[0] > 0)
    ensures SegsOk(sz, segs) <==> SegsOk(if segs[0] < sz then sz else segs[0], segs[1..])
  {
    assert segs == [segs[0]] + segs[1..];
  }

  /** The pages of a stretch are there, the tables for them too, and the free pages are fewer by what that takes. */
  predicate Took(v: Vm, w: Vm, d: int, lo: nat, hi: nat)
    requires lo <= hi
  {
    Tables(w, d) == Tables(v, d) + TablesOf(lo, hi) && |w.free| == |v.free| - Need(Tables(v, d), lo, hi)
  }

  lemma TookNone(v: Vm, d: int, lo: nat)
    ensures Took(v, v, d, lo, lo)
  {
    NeedNone(Tables(v, d), lo);
    assert TablesOf(lo, lo) == {};
  }

  lemma TookThen(v: Vm, v1: Vm, w: Vm, d: int, lo: nat, mid: nat, hi: nat)
    requires lo <= mid <= hi && Took(v, v1, d, lo, mid) && Took(v1, w, d, mid, hi)
    ensures Took(v, w, d, lo, hi)
  {
    NeedJoin(Tables(v, d), lo, mid, hi);
  }

  /** One allocuvm of a directory that maps exactly its size */
  lemma AllocGrownIff(v: Vm, d: int, sz: nat, newsz: nat, o: Outcome)
    requires Sized(v, d, sz) && o == Alloc(v, d, sz, newsz) && o.Ret? && sz <= newsz < KERNBASE && newsz > 0
    ensures RoundUp(sz) <= RoundUp(newsz)
    ensures o.r == if Need(Tables(v, d), RoundUp(sz), RoundUp(newsz)) <= |v.free| then newsz else 0
    ensures o.r > 0 ==> Took(v, o.v, d, RoundUp(sz), RoundUp(newsz))
  {
    assert SizedOf(v, d, sz);
    OneFirst(v, d, RoundUp(sz), RoundUp(newsz), true, RoundUp(newsz));
    AllocIff(v, d, sz, newsz);
    AllocMeans(v, d, sz, newsz);
    if o.r == newsz { AllocTakes(v, d, sz, newsz, o); }
  }

  /** The loop over the segments goes through exactly if they are in order and there are pages for all of them. */
  lemma {:induction false} LoadIff(v: Vm, d: int, sz: nat, segs: seq<nat>, o: Outcome)
    requires Sized(v, d, sz) && o == Load(v, d, sz, segs) && o.Ret?
    ensures RoundUp(sz) <= RoundUp(EndOf(sz, segs))
    ensures o.r == if SegsOk(sz, segs) && Need(Tables(v, d), RoundUp(sz), RoundUp(EndOf(sz, segs))) <= |v.free|
                   then EndOf(sz, segs) else -1
    ensures o.r >= 0 ==> Took(v, o.v, d, RoundUp(sz), RoundUp(EndOf(sz, segs)))
    decreases |segs|
  {
    EndAbove(sz, segs);
    if segs == [] {
      TookNone(v, d, RoundUp(sz));
    } else if segs[0] >= KERNBASE || (sz == 0 && segs[0] == 0) {
      NoSegment(v, d, sz, segs[0]);
    } else {
      SegsRest(sz, segs);
      if segs[0] < sz {
        LoadIff(v, d, sz, segs[1..], o);
      } else {
        var one := Alloc(v, d, sz, segs[0]);
        AllocGrown(v, d, sz, segs[0], one);
        AllocGrownIff(v, d, sz, segs[0], one);
        EndAbove(segs[0], segs[1..]);
        NeedJoin(Tables(v, d), RoundUp(sz), RoundUp(segs[0]), RoundUp(EndOf(sz, segs)));
        if one.r > 0 {
          LoadIff(one.v, d, segs[0], segs[1..], o);
          if o.r >= 0 { TookThen(v, one.v, o.v, d, RoundUp(sz), RoundUp(segs[0]), RoundUp(EndOf(sz, segs))); }
        }
      }
    }
  }

  lemma NoSegment(v: Vm, d: int, sz: nat, seg: nat)
    requires Sized(v, d, sz) && (seg >= KERNBASE || (sz == 0 && seg == 0))
    ensures Alloc(v, d, sz, seg) == Ret(v, 0)
  {
  }

  /** The whole image is made exactly if the segments are in order and end low enough, and there are pages for them and
      for the stack. */
  lemma ImageIff(v: Vm, d: int, segs: seq<nat>, o: Outcome)
    requires Sized(v, d, 0) && o == Image(v, d, segs) && o.Ret?
    ensures var top := RoundUp(EndOf(0, segs)) + 2;
      o.r == if SegsOk(0, segs) && top < USER && Need(Tables(v, d), 0, top) <= |v.free| then top * PGSIZE else -1
  {
    var one := Load(v, d, 0, segs);
    LoadGrown(v, d, 0, segs, one);
    GrownSized(v, d, one);
    LoadIff(v, d, 0, segs, one);
    assert RoundUp(0) == 0;
    ImageFrom(v, d, EndOf(0, segs), SegsOk(0, segs), one, o);
  }

  /** The image once it is known what became of the segments, which end at `end` if they are in order. */
  lemma ImageFrom(v: Vm, d: int, end: nat, ok: bool, one: Outcome, o: Outcome)
    requires one.Ret? && o.Ret? && o == WithStack(d, one)
    requires one.r == if ok && Need(Tables(v, d), 0, RoundUp(end)) <= |v.free| then end else -1
    requires one.r >= 0 ==> Sized(one.v, d, end) && Took(v, one.v, d, 0, RoundUp(end))
    ensures var top := RoundUp(end) + 2;
      o.r == if ok && top < USER && Need(Tables(v, d), 0, top) <= |v.free| then top * PGSIZE else -1
  {
    NeedJoin(Tables(v, d), 0, RoundUp(end), RoundUp(end) + 2);
    if one.r >= 0 {
      StackIff(one.v, d, end, o);
      StackAfter(v, one.v, d, RoundUp(end));
    }
  }

  lemma StackAfter(v: Vm, w: Vm, d: int, end: nat)
    requires Took(v, w, d, 0, end)
    ensures Need(Tables(w, d), end, end + 2) <= |w.free| <==> Need(Tables(v, d), 0, end + 2) <= |v.free|
  {
    NeedJoin(Tables(v, d), 0, end, end + 2);
  }

  lemma StackIff(v: Vm, d: int, sz: nat, o: Outcome)
    requires Sized(v, d, sz) && o == AddStack(v, d, sz) && o.Ret?
    ensures var top := RoundUp(sz) + 2;
      o.r == if top < USER && Need(Tables(v, d), RoundUp(sz), top) <= |v.free| then top * PGSIZE else -1
  {
    BoundarySized(v, d, sz);
    var base := RoundUp(sz) * PGSIZE;
    if base + 2 * PGSIZE < KERNBASE {
      var one := Alloc(v, d, base, base + 2 * PGSIZE);
      AllocGrown(v, d, base, base + 2 * PGSIZE, one);
      AllocGrownIff(v, d, base, base + 2 * PGSIZE, one);
      assert RoundUp(base + 2 * PGSIZE) == RoundUp(sz) + 2;
    }
  }
}
