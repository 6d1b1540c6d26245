/** umalloc.c as a machine: what malloc and free do to the free list, the block they start from next time, and what
    holds after every run of calls. */
module KrArena {
  import opened Helpers
  import opened KrPool

  const HEADER: nat := 8 // sizeof(Header)
  const MIN_CORE: nat := 4096

  // ---- Sizes in units ----

  const UINT: nat := 0x1_0000_0000

  /** nunits, in 32-bit arithmetic */
  function Units(nbytes: nat): nat { (nbytes + HEADER - 1) % UINT / HEADER + 1 }

  /** The block holds its header and `nbytes` bytes exactly when the sum did not wrap. */
  lemma UnitsSuffice(nbytes: nat)
    requires nbytes < UINT
    ensures (Units(nbytes) - 1) * HEADER >= nbytes <==> nbytes <= UINT - HEADER
    ensures nbytes <= UINT - HEADER ==> (Units(nbytes) - 2) * HEADER < nbytes
  {
  }

  /** The argument of sbrk as its int parameter receives it. */
  function SbrkArg(nu: nat): int {
    var n := nu * HEADER % UINT;
    if n >= UINT / 2 then n - UINT else n
  }

  lemma SbrkArgExact(nu: nat)
    requires nu <= UINT / HEADER
    ensures SbrkArg(nu) == nu * HEADER <==> nu < UINT / 2 / HEADER
  {
  }

  // ---- The place of a freed block ----

  /** The last free block below `bp`. */
  function Place(fl: seq<int>, bp: int, k: nat): (t: nat)
    requires Sorted(fl) && k < |fl| && fl[k] < bp && bp !in fl
    ensures Slot(fl, bp, t) && k <= t
    decreases |fl| - k
  {
    if k + 1 < |fl| && fl[k + 1] < bp then Place(fl, bp, k + 1)
    else k
  }

  lemma SlotUnique(fl: seq<int>, bp: int, t: int, i: int)
    requires Sorted(fl) && Slot(fl, bp, t) && 0 <= i < |fl|
    ensures Slot(fl, bp, i) <==> i == t
  {
    assert t < i ==> fl[t + 1] <= fl[i];
    assert i < t ==> fl[i + 1] <= fl[t];
  }

  lemma LivePlace(P: Pool, bp: int)
    requires Inv(P) && bp in P.live
    ensures Listed(P) && P.fl[0] < bp && bp !in P.fl && bp in P.size && P.size[bp] > 0
  {
    assert Block(P, bp);
    SoundListed(P);
  }

  /** The position of the free block before the live block `bp`. */
  function PlaceOf(P: Pool, bp: int): (t: nat)
    requires Inv(P) && bp in P.live
    ensures Slot(P.fl, bp, t)
  {
    LivePlace(P, bp);
    Place(P.fl, bp, 0)
  }

  /** The pool after free. */
  function AfterFree(P: Pool, bp: int): Pool
    requires Inv(P) && bp in P.live
  {
    LivePlace(P, bp);
    Released(P, bp, PlaceOf(P, bp))
  }

  /** `P'` is `P` after block `bp` was freed: in order again, with the same units and the other live blocks as they
      were. */
  ghost predicate Freed(P: Pool, P': Pool, bp: int) {
    && |P.fl| > 0 && Inv(P') && P'.fl[0] == P.fl[0]
    && P'.owner.Keys == P.owner.Keys && P'.live == P.live - {bp} && SameLive(P, P')
  }

  /** Freeing a block keeps the pool in order and every unit in it, and touches no other live block. */
  lemma AfterFreeInv(P: Pool, bp: int)
    requires Inv(P) && bp in P.live
    ensures var P' := AfterFree(P, bp); var t := PlaceOf(P, bp);
      && Freed(P, P', bp) && t < |P'.fl| && P'.fl[t] == P.fl[t] && bp in P.size && Holds(P', t, P.size[bp])
  {
    LivePlace(P, bp);
    ReleasedInv(P, bp, PlaceOf(P, bp));
  }

  function CoreUnits(n: nat): nat { if n < MIN_CORE then MIN_CORE else n }

  // ---- Searching the ring ----

  function Wrap(j: nat, m: nat): (i: nat)
    requires j < 2 * m
    ensures i < m
  {
    if j < m then j else j - m
  }

  /** The first of the steps `j`, ..., `end` round the ring that meets a block of `n` units, or `end + 1`. */
  function FitFrom(fl: seq<int>, size: map<int, int>, j: nat, end: nat, n: nat): (r: nat)
    requires forall i :: 0 <= i < |fl| ==> fl[i] in size
    requires j <= end + 1 && end < 2 * |fl|
    ensures j <= r <= end + 1
    ensures r <= end ==> size[fl[Wrap(r, |fl|)]] >= n
    ensures forall k :: j <= k < r ==> size[fl[Wrap(k, |fl|)]] < n
    decreases end + 1 - j
  {
    if j > end || size[fl[Wrap(j, |fl|)]] >= n then j else FitFrom(fl, size, j + 1, end, n)
  }

  /** The step at which a search that starts after free block `s` finds `n` units. */
  function FirstFit(P: Pool, s: nat, n: nat): nat
    requires Listed(P) && s < |P.fl|
  {
    FitFrom(P.fl, P.size, s + 1, s + |P.fl|, n)
  }

  ghost predicate Fits(P: Pool, n: nat)
    requires Listed(P)
  {
    exists i :: 0 <= i < |P.fl| && P.size[P.fl[i]] >= n
  }

  /** A full turn of the ring meets every free block. */
  lemma FullTurn(P: Pool, s: nat, n: nat)
    requires Listed(P) && s < |P.fl|
    ensures FirstFit(P, s, n) <= s + |P.fl| <==> Fits(P, n)
  {
    var m := |P.fl|;
    if FirstFit(P, s, n) == s + m + 1 {
      forall i | 0 <= i < m ensures P.size[P.fl[i]] < n {
        assert Wrap(if i > s then i else i + m, m) == i;
      }
    }
  }

  lemma FitsLess(P: Pool, n: nat, m: nat)
    requires Listed(P) && Fits(P, n) && m <= n
    ensures Fits(P, m)
  {
  }

  // ---- More core ----

  /** Address `c` lies above everything obtained so far. */
  ghost predicate Above(P: Pool, c: int)
    requires |P.fl| > 0
  {
    c > P.fl[0] && forall u :: u in P.owner ==> u < c
  }

  lemma GrowInv(P: Pool, c: int, nu: nat)
    requires Inv(P) && nu > 0 && Above(P, c)
    ensures Inv(Grow(P, c, nu)) && Grow(P, c, nu).owner.Keys == P.owner.Keys + Chunk(c, nu) && c !in P.live
  {
    GrowSound(P, c, nu);
    GrowApart(P, c, nu);
  }

  /** `P'` is `P` after a chunk of `nu` units at `c` was added to the free list: now some block has `nu` units. */
  ghost predicate Grew(P: Pool, P': Pool, c: int, nu: nat) {
    && |P.fl| > 0 && Inv(P') && Listed(P') && P'.fl[0] == P.fl[0]
    && P'.owner.Keys == P.owner.Keys + Chunk(c, nu) && P'.live == P.live && SameLive(P, P') && Fits(P', nu)
  }

  lemma GrewBy(P: Pool, P': Pool, c: int, nu: nat, t: nat)
    requires Inv(P) && nu > 0 && Above(P, c) && Freed(Grow(P, c, nu), P', c) && Holds(P', t, nu)
    ensures Grew(P, P', c, nu)
  {
    GrowInv(P, c, nu);
    SoundListed(P');
    assert forall a :: a in P.live ==> Block(P, a);
  }

  function Rover(fl: seq<int>, a: int): (s: nat)
    requires a in fl
    ensures s < |fl| && fl[s] == a
  {
    if fl[0] == a then 0 else Rover(fl[1..], a) + 1
  }

  lemma SameAddress(fl: seq<int>, i: nat, k: nat)
    requires Sorted(fl) && i < |fl| && k < |fl|
    ensures fl[i] == fl[k] <==> i == k
  {
    assert i < k ==> fl[i] < fl[k];
    assert k < i ==> fl[k] < fl[i];
  }

  lemma NotBase(P: Pool, i: nat, n: nat)
    requires Inv(P) && Listed(P) && i < |P.fl| && P.size[P.fl[i]] >= n > 0
    ensures i > 0
  {
  }

  // ---- The arena ----

  /** The pool, and the free block at which the next search starts; 0 before the first call. */
  datatype Arena = Arena(pool: Pool, freep: int)

  ghost predicate Ok(a: Arena) {
    && Inv(a.pool) && a.pool.fl[0] > 0
    && (if a.freep == 0 then a.pool.live == {} else a.freep in a.pool.fl)
  }

  /** The first call makes a ring of the empty block alone. */
  function Start(a: Arena): int
    requires |a.pool.fl| > 0
  {
    if a.freep == 0 then a.pool.fl[0] else a.freep
  }

  /** free of block `bp` */
  ghost function FreeIn(a: Arena, bp: int): Arena
    requires Ok(a) && bp in a.pool.live
  {
    Arena(AfterFree(a.pool, bp), a.pool.fl[PlaceOf(a.pool, bp)])
  }

  lemma FreeOk(a: Arena, bp: int)
    requires Ok(a) && bp in a.pool.live
    ensures Ok(FreeIn(a, bp)) && Freed(a.pool, FreeIn(a, bp).pool, bp)
  {
    AfterFreeInv(a.pool, bp);
    var t := PlaceOf(a.pool, bp);
    assert FreeIn(a, bp).pool.fl[t] == FreeIn(a, bp).freep;
  }

  /** morecore, when sbrk answers `c`: the chunk is adopted as a block and freed. */
  ghost function GrowIn(a: Arena, c: int, nu: nat): Arena
    requires Ok(a) && nu > 0 && Above(a.pool, c)
  {
    GrowInv(a.pool, c, nu);
    FreeIn(Arena(Grow(a.pool, c, nu), Start(a)), c)
  }

  lemma GrowOk(a: Arena, c: int, nu: nat)
    requires Ok(a) && nu > 0 && Above(a.pool, c)
    ensures Ok(GrowIn(a, c, nu)) && Grew(a.pool, GrowIn(a, c, nu).pool, c, nu)
  {
    GrowInv(a.pool, c, nu);
    var b := Arena(Grow(a.pool, c, nu), Start(a));
    FreeOk(b, c);
    AfterFreeInv(b.pool, c);
    GrewBy(a.pool, GrowIn(a, c, nu).pool, c, nu, PlaceOf(b.pool, c));
  }

  /** The first free block of `n` units from the start on. */
  ghost function FitOf(a: Arena, n: nat): (i: nat)
    requires Ok(a) && n > 0 && Listed(a.pool) && Fits(a.pool, n)
    ensures 0 < i < |a.pool.fl| && a.pool.size[a.pool.fl[i]] >= n
  {
    var s := Rover(a.pool.fl, Start(a));
    FullTurn(a.pool, s, n);
    var i := Wrap(FirstFit(a.pool, s, n), |a.pool.fl|);
    NotBase(a.pool, i, n);
    i
  }

  /** What a turn round the ring from `freep` meets. */
  lemma TurnMeets(a: Arena, n: nat)
    requires Ok(a) && n > 0 && Listed(a.pool) && a.freep != 0
    ensures var m, s := |a.pool.fl|, Rover(a.pool.fl, a.freep); var j := FirstFit(a.pool, s, n);
      && (j <= s + m <==> Fits(a.pool, n))
      && (j <= s + m ==> FitOf(a, n) == Wrap(j, m))
  {
    FullTurn(a.pool, Rover(a.pool.fl, a.freep), n);
  }

  /** The search found a block: its tail, or all of it, is handed out. */
  ghost function HandIn(a: Arena, n: nat): (Arena, int)
    requires Ok(a) && n > 0 && Listed(a.pool) && Fits(a.pool, n)
  {
    var i := FitOf(a, n);
    (Arena(Handed(a.pool, i, n), a.pool.fl[i - 1]), Given(a.pool, i, n) + 1)
  }

  lemma HandOk(a: Arena, n: nat)
    requires Ok(a) && n > 0 && Listed(a.pool) && Fits(a.pool, n)
    ensures var (a', r) := HandIn(a, n); Ok(a') && r > 1 && Gave(a.pool, a'.pool, r - 1, n)
  {
    var i := FitOf(a, n);
    HandedInv(a.pool, i, n);
    assert Handed(a.pool, i, n).fl[i - 1] == a.pool.fl[i - 1];
  }

  /** `P'` is `P` with one more live block, of `n` units at `h`. */
  ghost predicate Gave(P: Pool, P': Pool, h: int, n: nat) {
    && h !in P.live && P'.live == P.live + {h} && h in P'.size && P'.size[h] == n && P'.owner.Keys == P.owner.Keys
    && forall x :: x in P.live ==> x in P.size && x in P'.size && P'.size[x] == P.size[x]
  }

  /** malloc of `n` units; `core` is what sbrk would answer, -1 if it fails.  0 is the null pointer. */
  ghost function MallocIn(a: Arena, n: nat, core: int): (Arena, int)
    requires Ok(a) && n > 0 && (core == -1 || Above(a.pool, core))
  {
    SoundListed(a.pool);
    var a0 := Arena(a.pool, Start(a));
    if Fits(a.pool, n) then HandIn(a0, n)
    else if core == -1 then (a0, 0)
    else Refilled(a0, n, core)
  }

  ghost function Refilled(a: Arena, n: nat, core: int): (Arena, int)
    requires Ok(a) && n > 0 && Above(a.pool, core)
  {
    GrowOk(a, core, CoreUnits(n));
    var b := GrowIn(a, core, CoreUnits(n));
    FitsLess(b.pool, CoreUnits(n), n);
    HandIn(b, n)
  }

  lemma RefilledMeans(a: Arena, n: nat, core: int)
    requires Ok(a) && n > 0 && Above(a.pool, core)
    ensures var (a', r) := Refilled(a, n, core);
      && Ok(a') && r > 1 && Took(a.pool, a'.pool, r - 1, n)
      && a'.pool.owner.Keys == a.pool.owner.Keys + Chunk(core, CoreUnits(n))
  {
    GrowOk(a, core, CoreUnits(n));
    var b := GrowIn(a, core, CoreUnits(n));
    FitsLess(b.pool, CoreUnits(n), n);
    HandOk(b, n);
  }

  /** The live blocks and their sizes are those of `P`, and a new one of `n` units at `h`. */
  ghost predicate Took(P: Pool, P': Pool, h: int, n: nat) {
    && h !in P.live && P'.live == P.live + {h} && h in P'.size && P'.size[h] == n
    && forall x :: x in P.live ==> x in P.size && x in P'.size && P'.size[x] == P.size[x]
  }

  /** What a request means: it fails exactly when no free block is large enough and sbrk fails, and then changes no
      block; otherwise there is one new live block, the old ones are as they were, and core was taken exactly when no
      free block was large enough. */
  ghost predicate Answered(P: Pool, n: nat, core: int, P': Pool, r: int)
    requires Listed(P)
  {
    && (r == 0 <==> !Fits(P, n) && core == -1)
    && (r == 0 ==> P' == P)
    && (r != 0 ==> Took(P, P', r - 1, n) && P'.owner.Keys == P.owner.Keys + NewUnits(P, n, core))
  }

  /** The units a request adds to the list. */
  ghost function NewUnits(P: Pool, n: nat, core: int): set<int>
    requires Listed(P)
  {
    if Fits(P, n) || core == -1 then {} else Chunk(core, CoreUnits(n))
  }

  lemma MallocMeans(a: Arena, n: nat, core: int)
    requires Ok(a) && n > 0 && (core == -1 || Above(a.pool, core))
    ensures Listed(a.pool) && Ok(MallocIn(a, n, core).0)
    ensures Answered(a.pool, n, core, MallocIn(a, n, core).0.pool, MallocIn(a, n, core).1)
  {
    SoundListed(a.pool);
    if Fits(a.pool, n) {
      MallocHands(a, n, core);
    } else if core != -1 {
      RefilledMeans(Arena(a.pool, Start(a)), n, core);
    }
  }

  /** The two ways of malloc that give a block. */
  lemma MallocIs(a: Arena, n: nat, core: int)
    requires Ok(a) && n > 0 && (core == -1 || Above(a.pool, core)) && Listed(a.pool)
    ensures Ok(Arena(a.pool, Start(a)))
    ensures Fits(a.pool, n) ==> MallocIn(a, n, core) == HandIn(Arena(a.pool, Start(a)), n)
    ensures !Fits(a.pool, n) && core == -1 ==> MallocIn(a, n, core) == (Arena(a.pool, Start(a)), 0)
    ensures !Fits(a.pool, n) && core != -1 ==> MallocIn(a, n, core) == Refilled(Arena(a.pool, Start(a)), n, core)
  {
  }

  lemma MallocHands(a: Arena, n: nat, core: int)
    requires Ok(a) && n > 0 && (core == -1 || Above(a.pool, core)) && Listed(a.pool) && Fits(a.pool, n)
    ensures Ok(MallocIn(a, n, core).0)
    ensures Answered(a.pool, n, core, MallocIn(a, n, core).0.pool, MallocIn(a, n, core).1)
  {
    var a0 := Arena(a.pool, Start(a));
    HandOk(a0, n);
    GaveTook(a.pool, n, core, HandIn(a0, n).0.pool, HandIn(a0, n).1);
    MallocIs(a, n, core);
  }

  lemma GaveTook(P: Pool, n: nat, core: int, P': Pool, r: int)
    requires Listed(P) && Fits(P, n) && r > 1 && Gave(P, P', r - 1, n)
    ensures Answered(P, n, core, P', r)
  {
    assert P.owner.Keys + {} == P.owner.Keys;
  }

  // ---- Runs ----

  /** malloc(nbytes), with what sbrk would answer, or free(ap) */
  datatype Call = Alloc(nbytes: nat, core: int) | Release(ap: int)

  /** sbrk answers with an address above what it gave before, and only live blocks are freed. */
  ghost predicate Enabled(a: Arena, c: Call)
    requires |a.pool.fl| > 0
  {
    match c
    case Alloc(nbytes, core) => nbytes < UINT && (core == -1 || Above(a.pool, core))
    case Release(ap) => ap - 1 in a.pool.live
  }

  ghost function Step(a: Arena, c: Call): Arena
    requires Ok(a) && Enabled(a, c)
  {
    match c
    case Alloc(nbytes, core) => MallocIn(a, Units(nbytes), core).0
    case Release(ap) => FreeIn(a, ap - 1)
  }

  lemma StepOk(a: Arena, c: Call)
    requires Ok(a) && Enabled(a, c)
    ensures Ok(Step(a, c))
  {
    match c
    case Alloc(nbytes, core) => MallocMeans(a, Units(nbytes), core);
    case Release(ap) => FreeOk(a, ap - 1);
  }

  /** The arena before the first call; `base` is the address of the empty block. */
  function Empty(base: nat): Arena { Arena(Pool([base], map[base := 0], {}, map[]), 0) }

  /** The arena after the calls, None if one was not allowed. */
  ghost function Run(base: nat, calls: seq<Call>): (r: Option<Arena>)
    requires base > 0
    ensures r.Some? ==> Ok(r.value)
  {
    if calls == [] then Some(Empty(base)) else
    match Run(base, calls[..|calls| - 1])
    case None => None
    case Some(a) =>
      var c := calls[|calls| - 1];
      if Enabled(a, c) then StepOk(a, c); Some(Step(a, c)) else None
  }

  /** Whether the call goes to sbrk and gets an answer. */
  ghost predicate Grows(a: Arena, c: Call)
    requires Ok(a)
  {
    SoundListed(a.pool);
    c.Alloc? && !Fits(a.pool, Units(c.nbytes)) && c.core != -1
  }

  /** The units that the call enters into the list as new. */
  ghost function Entered(a: Arena, c: Call): set<int>
    requires Ok(a)
  {
    SoundListed(a.pool);
    if c.Alloc? then NewUnits(a.pool, Units(c.nbytes), c.core) else {}
  }

  /** The units that sbrk made available. */
  ghost function Granted(a: Arena, c: Call): set<int>
    requires Ok(a)
  {
    if Grows(a, c) then Chunk(c.core, GrantedUnits(CoreUnits(Units(c.nbytes)))) else {}
  }

  function GrantedUnits(nu: nat): nat { if SbrkArg(nu) < 0 then 0 else SbrkArg(nu) / HEADER }

  ghost predicate Exact(a: Arena, c: Call)
    requires Ok(a)
  {
    Grows(a, c) ==> CoreUnits(Units(c.nbytes)) < UINT / 2 / HEADER
  }

  lemma StepMeans(a: Arena, c: Call)
    requires Ok(a) && Enabled(a, c)
    ensures Step(a, c).pool.owner.Keys == a.pool.owner.Keys + Entered(a, c)
    ensures Step(a, c).pool.live == StillOut(a, c, a.pool.live)
  {
    match c
    case Alloc(nbytes, core) => AllocMeans(a, nbytes, core);
    case Release(ap) => ReleaseMeans(a, ap);
  }

  lemma ReleaseMeans(a: Arena, ap: int)
    requires Ok(a) && Enabled(a, Release(ap))
    ensures var c := Release(ap);
      && Step(a, c).pool.owner.Keys == a.pool.owner.Keys + Entered(a, c)
      && Step(a, c).pool.live == StillOut(a, c, a.pool.live)
  {
    FreeOk(a, ap - 1);
    assert a.pool.owner.Keys + {} == a.pool.owner.Keys;
  }

  lemma AllocMeans(a: Arena, nbytes: nat, core: int)
    requires Ok(a) && Enabled(a, Alloc(nbytes, core))
    ensures var c := Alloc(nbytes, core);
      && Step(a, c).pool.owner.Keys == a.pool.owner.Keys + Entered(a, c)
      && Step(a, c).pool.live == StillOut(a, c, a.pool.live)
  {
    MallocMeans(a, Units(nbytes), core);
    var r := MallocIn(a, Units(nbytes), core).1;
    if r == 0 { assert a.pool.owner.Keys + {} == a.pool.owner.Keys; }
  }

  /** The blocks handed out and not yet freed after the call, when `out` were before. */
  ghost function StillOut(a: Arena, c: Call, out: set<int>): set<int>
    requires Ok(a) && Enabled(a, c)
  {
    match c
    case Alloc(nbytes, core) => var r := MallocIn(a, Units(nbytes), core).1; if r == 0 then out else out + {r - 1}
    case Release(ap) => out - {ap - 1}
  }

  /** What the calls handed out and did not take back, what they entered into the list, what sbrk granted, and
      whether each time it granted what it was asked for. */
  datatype Account = Account(out: set<int>, entered: set<int>, granted: set<int>, exact: bool)

  ghost function Accounts(base: nat, calls: seq<Call>): Account
    requires base > 0 && Run(base, calls).Some?
  {
    if calls == [] then Account({}, {}, {}, true) else
      var init, c := calls[..|calls| - 1], calls[|calls| - 1];
      var a, t := Run(base, init).value, Accounts(base, init);
      Account(StillOut(a, c, t.out), t.entered + Entered(a, c), t.granted + Granted(a, c), t.exact && Exact(a, c))
  }

  /** A call enters what it was granted exactly when the argument of sbrk did not wrap. */
  lemma EnteredIsGranted(a: Arena, c: Call)
    requires Ok(a) && Enabled(a, c)
    ensures Granted(a, c) <= Entered(a, c) && (Granted(a, c) == Entered(a, c) <==> Exact(a, c))
    ensures forall u :: u in Entered(a, c) ==> u !in a.pool.owner
  {
    if Grows(a, c) {
      var nu := CoreUnits(Units(c.nbytes));
      SbrkArgExact(nu);
      if Exact(a, c) {
        assert GrantedUnits(nu) == nu;
      } else {
        assert InChunk(c.core, c.core, nu) && c.core in Entered(a, c);
        assert GrantedUnits(nu) == 0 && c.core !in Granted(a, c);
      }
    }
  }

  /** In every run of malloc and free the list is sorted, no blocks overlap and no two free blocks touch; the live
      blocks are those handed out and not freed; the units in blocks are those that morecore entered, and they are
      the ones that sbrk granted exactly as long as no request came to 2^28 units. */
  lemma {:induction false} RunKeeps(base: nat, calls: seq<Call>)
    requires base > 0 && Run(base, calls).Some?
    ensures var a, t := Run(base, calls).value, Accounts(base, calls);
      && Ok(a) && a.pool.live == t.out && a.pool.owner.Keys == t.entered
      && t.granted <= t.entered && (t.granted == t.entered <==> t.exact)
  {
    if calls != [] {
      var init, c := calls[..|calls| - 1], calls[|calls| - 1];
      RunKeeps(base, init);
      var a, t := Run(base, init).value, Accounts(base, init);
      StepMeans(a, c);
      EnteredIsGranted(a, c);
      SetsAdd(t.granted, t.entered, Granted(a, c), Entered(a, c));
    }
  }

  lemma SetsAdd(g: set<int>, e: set<int>, g1: set<int>, e1: set<int>)
    requires g <= e && g1 <= e1 && forall u :: u in e1 ==> u !in e
    ensures g + g1 <= e + e1 && (g + g1 == e + e1 <==> g == e && g1 == e1)
  {
    if g + g1 == e + e1 {
      assert forall u :: u in e ==> u in g + g1 && u !in g1;
      assert forall u :: u in e1 ==> u in g + g1 && u !in g;
    }
  }
}
