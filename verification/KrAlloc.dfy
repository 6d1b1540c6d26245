/** umalloc.c: malloc and free on a circular, address-ordered list of free blocks threaded through the headers. */
module KrAlloc {
  import opened KrPool
  import opened KrArena

  // ---- The ring ----

  function Next(n: nat, i: nat): (j: nat)
    requires i < n
    ensures j < n
  {
    if i + 1 < n then i + 1 else 0
  }

  /** Every free block points to the next one, the last one to the first. */
  predicate Linked(ptr: map<int, int>, fl: seq<int>) {
    LinkedBut(ptr, fl, -1)
  }

  predicate LinkedBut(ptr: map<int, int>, fl: seq<int>, t: int) {
    forall i :: 0 <= i < |fl| && i != t ==> LinkAt(ptr, fl, i)
  }

  predicate LinkAt(ptr: map<int, int>, fl: seq<int>, i: int)
    requires 0 <= i < |fl|
  {
    fl[i] in ptr && ptr[fl[i]] == fl[Next(|fl|, i)]
  }

  /** `bp` points past its predecessor's successor; only the predecessor's own pointer is missing. */
  lemma LinkIn(ptr: map<int, int>, fl: seq<int>, bp: int, t: nat)
    requires Linked(ptr, fl) && t < |fl| && bp !in fl && fl[t] in ptr
    ensures LinkedBut(ptr[bp := ptr[fl[t]]], InsertAt(fl, t, bp), t)
  {
    var fl', ptr' := InsertAt(fl, t, bp), ptr[bp := ptr[fl[t]]];
    forall i | 0 <= i < |fl'| && i != t ensures LinkAt(ptr', fl', i) {
      var k := if i < t then i else i - 1;
      assert LinkAt(ptr, fl, k);
    }
  }

  /** Joining block `i + 1` into block `i` by taking over its pointer. */
  lemma LinkOver(ptr: map<int, int>, fl: seq<int>, i: nat, t: int)
    requires Sorted(fl) && 0 < i < |fl| - 1 && t <= i && LinkedBut(ptr, fl, t) && fl[i + 1] in ptr
    ensures LinkedBut(ptr[fl[i] := ptr[fl[i + 1]]], DropAt(fl, i + 1), if t == i then -1 else t)
  {
    var fl', ptr' := DropAt(fl, i + 1), ptr[fl[i] := ptr[fl[i + 1]]];
    forall j | 0 <= j < |fl'| && (t == i || j != t) ensures LinkAt(ptr', fl', j) {
      assert LinkAt(ptr, fl, if j < i then j else j + 1);
    }
  }

  /** Taking block `i` out of the list. */
  lemma LinkPast(ptr: map<int, int>, fl: seq<int>, i: nat)
    requires Sorted(fl) && 0 < i < |fl| && Linked(ptr, fl) && fl[i] in ptr
    ensures Linked(ptr[fl[i - 1] := ptr[fl[i]]], DropAt(fl, i))
  {
    var fl', ptr' := DropAt(fl, i), ptr[fl[i - 1] := ptr[fl[i]]];
    assert LinkAt(ptr, fl, i);
    forall j | 0 <= j < |fl'| ensures LinkAt(ptr', fl', j) {
      assert LinkAt(ptr, fl, if j < i then j else j + 1);
    }
  }

  /** Where a search ends is where the specification says. */
  lemma Landed(a: Arena, n: nat, k: nat)
    requires Ok(a) && n > 0 && Listed(a.pool) && a.freep != 0 && k < |a.pool.fl|
    requires var m, s := |a.pool.fl|, Rover(a.pool.fl, a.freep); var j := FirstFit(a.pool, s, n);
      if j <= s + m then Next(m, k) == Wrap(j, m) else a.pool.size[a.pool.fl[Next(m, k)]] < n
    ensures var i := Next(|a.pool.fl|, k);
      && (a.pool.size[a.pool.fl[i]] >= n <==> Fits(a.pool, n))
      && (Fits(a.pool, n) ==> i == FitOf(a, n) && k == i - 1)
  {
    TurnMeets(a, n);
  }

  class Heap {
    const base: int
    var ptr: map<int, int>
    var size: map<int, int>
    var freep: int // 0 before the first call

    ghost var pool: Pool

    ghost predicate Valid()
      reads this
    {
      && base > 0 && pool.size == size && Ok(Value()) && pool.fl[0] == base
      && (if freep == 0 then pool.fl == [base] else Linked(ptr, pool.fl))
    }

    ghost function Value(): Arena
      reads this
    {
      Arena(pool, freep)
    }

    constructor (b: int)
      requires b > 0
      ensures Valid() && base == b && Value() == Empty(b)
    {
      base := b;
      ptr, size, freep := map[b := 0], map[b := 0], 0;
      pool := Pool([b], map[b := 0], {}, map[]);
    }

    /** free: the pool releases the block, and the list is entered next time at the block before it. */
    method Free(ap: int)
      requires Valid() && ap - 1 in pool.live
      modifies this
      ensures Valid() && Value() == FreeIn(old(Value()), ap - 1)
    {
      var p, P' := Insert(ap - 1);
      freep := p;
      pool := P';
    }

    /** The list work of free: find the place, link the block in and join it with its neighbours. */
    method Insert(bp: int) returns (p: int, ghost P': Pool)
      requires Valid() && bp in pool.live
      modifies this`ptr, this`size
      ensures size == P'.size && Linked(ptr, P'.fl) && p in P'.fl && p == pool.fl[PlaceOf(pool, bp)]
      ensures P' == AfterFree(pool, bp) && Freed(pool, P', bp)
    {
      ghost var P := pool;
      ghost var t := PlaceOf(P, bp);
      LivePlace(P, bp);
      p := Locate(bp, t);
      Splice(bp, p, P, t);
      AfterFreeInv(P, bp);
      P' := AfterFree(P, bp);
      assert P'.fl[t] == p;
    }

    /** The pointer and size updates of free. */
    method Splice(bp: int, p: int, ghost P: Pool, ghost t: nat)
      requires Listed(P) && size == P.size && Linked(ptr, P.fl) && Slot(P.fl, bp, t) && P.fl[t] == p
      requires bp in size && size[bp] >= 0 && bp !in P.fl && P.fl[0] < bp && size[P.fl[0]] == 0
      modifies this`ptr, this`size
      ensures size == Released(P, bp, t).size && Linked(ptr, Released(P, bp, t).fl)
    {
      assert LinkAt(ptr, P.fl, t);
      LinkIn(ptr, P.fl, bp, t);
      ghost var P1 := Put(P, bp, t);
      MergeUp(bp, p, P1, t);
      MergeDown(bp, p, JoinUp(P1, t), t);
    }

    /** Point `bp` to the free block after `p`, or swallow that block if it begins where `bp` ends. */
    method MergeUp(bp: int, p: int, ghost P: Pool, ghost t: nat)
      requires Listed(P) && size == P.size && t + 1 < |P.fl| && P.fl[t] == p && P.fl[t + 1] == bp
      requires P.fl[0] < bp && p in ptr && ptr[p] == P.fl[Next(|P.fl|, t + 1)] && LinkedBut(ptr[bp := ptr[p]], P.fl, t)
      modifies this`ptr, this`size
      ensures size == JoinUp(P, t).size && LinkedBut(ptr, JoinUp(P, t).fl, t)
    {
      var next := ptr[p];
      assert bp + size[bp] == next <==> t + 2 < |P.fl| && !Gap(P.fl, P.size, t + 1);
      if bp + size[bp] == next {
        assert LinkAt(ptr[bp := next], P.fl, t + 2);
        LinkOver(ptr[bp := next], P.fl, t + 1, t);
        size := size[bp := size[bp] + size[next]];
        assert ptr[bp := next][bp := ptr[next]] == ptr[bp := ptr[next]];
        ptr := ptr[bp := ptr[next]];
      } else {
        ptr := ptr[bp := next];
      }
    }

    /** Point `p` to `bp`, or let it swallow `bp` if it ends there. */
    method MergeDown(bp: int, p: int, ghost P: Pool, ghost t: nat)
      requires Listed(P) && size == P.size && t + 1 < |P.fl| && P.fl[t] == p && P.fl[t + 1] == bp
      requires P.size[P.fl[0]] == 0 && LinkedBut(ptr, P.fl, t)
      modifies this`ptr, this`size
      ensures size == JoinDown(P, t).size && Linked(ptr, JoinDown(P, t).fl)
    {
      assert LinkAt(ptr, P.fl, t + 1);
      assert p + size[p] == bp <==> t > 0 && !Gap(P.fl, P.size, t);
      if p + size[p] == bp {
        LinkOver(ptr, P.fl, t, t);
        size := size[p := size[p] + size[bp]];
        ptr := ptr[p := ptr[bp]];
      } else {
        ghost var before := ptr;
        ptr := ptr[p := bp];
        forall i | 0 <= i < |P.fl| ensures LinkAt(ptr, P.fl, i) {
          assert i != t ==> LinkAt(before, P.fl, i);
        }
      }
    }

    /** The loop of free: the free block that precedes `bp`. */
    method Locate(bp: int, ghost t: nat) returns (p: int)
      requires Valid() && freep != 0 && Slot(pool.fl, bp, t) && bp !in pool.fl && base < bp
      ensures p == pool.fl[t]
    {
      p := freep;
      ghost var i :| 0 <= i < |pool.fl| && pool.fl[i] == freep;
      SlotUnique(pool.fl, bp, t, i);
      while !(bp > p && bp < ptr[p])
        invariant 0 <= i < |pool.fl| && p == pool.fl[i] && LinkAt(ptr, pool.fl, i) && (Slot(pool.fl, bp, i) <==> i == t)
        decreases if i <= t then t - i else t + |pool.fl| - i
      {
        if p >= ptr[p] && (bp > p || bp < ptr[p]) { break; }
        p := ptr[p];
        i := Next(|pool.fl|, i);
        SlotUnique(pool.fl, bp, t, i);
      }
    }

    /** morecore; `core` is the address sbrk answers with, or -1 */
    method Morecore(n: nat, core: int) returns (p: int)
      requires Valid() && freep != 0 && n > 0
      requires core == -1 || Above(pool, core)
      modifies this
      ensures core == -1 ==> p == 0 && pool == old(pool) && freep == old(freep) && ptr == old(ptr) && size == old(size)
      ensures core != -1 ==> Valid() && p == freep != 0 && Value() == GrowIn(old(Value()), core, CoreUnits(n))
    {
      var nu := if n < MIN_CORE then MIN_CORE else n;
      if core == -1 { return 0; }
      Adopt(core, nu);
      Free(core + 1);
      p := freep;
    }

    /** The header of a new chunk. */
    method Adopt(c: int, nu: nat)
      requires Valid() && freep != 0 && nu > 0 && Above(pool, c)
      modifies this`size, this`pool
      ensures Valid() && pool == Grow(old(pool), c, nu) && c in pool.live
    {
      GrowInv(pool, c, nu);
      size := size[c := nu];
      pool := Grow(pool, c, nu);
    }

    /** The split or removal at the end of malloc: block `i` of the list follows block `k`. */
    method Grab(prevp: int, p0: int, n: nat, ghost i: nat, ghost k: nat) returns (p: int)
      requires Valid() && 0 < i < |pool.fl| && k < |pool.fl| && i == Next(|pool.fl|, k) && Linked(ptr, pool.fl)
      requires p0 == pool.fl[i] && prevp == pool.fl[k] && p0 in size && 0 < n <= size[p0]
      modifies this
      ensures Valid() && freep == prevp && pool == Handed(old(pool), i, n) && p == Given(old(pool), i, n)
    {
      ghost var P := pool;
      HandedInv(P, i, n);
      if size[p0] == n {
        PassOver(prevp, p0, i, k);
        p := p0;
      } else {
        p := SplitTail(p0, n, i);
      }
      freep := prevp;
      pool := Handed(P, i, n);
      assert pool.fl[k] == freep;
    }

    /** The exact fit: the block leaves the list. */
    method PassOver(prevp: int, p: int, ghost i: nat, ghost k: nat)
      requires Sorted(pool.fl) && Linked(ptr, pool.fl) && 0 < i < |pool.fl| && k < |pool.fl| && i == Next(|pool.fl|, k)
      requires p == pool.fl[i] && prevp == pool.fl[k]
      modifies this`ptr
      ensures Linked(ptr, DropAt(pool.fl, i))
    {
      assert LinkAt(ptr, pool.fl, i) && LinkAt(ptr, pool.fl, k);
      LinkPast(ptr, pool.fl, i);
      ptr := ptr[prevp := ptr[p]];
    }

    /** A larger block: its tail becomes a block of its own. */
    method SplitTail(p0: int, n: nat, ghost i: nat) returns (p: int)
      requires Sound(pool) && 0 < i < |pool.fl| && p0 == pool.fl[i] && pool.size == size && p0 in size
      requires 0 < n < size[p0]
      modifies this`size
      ensures size == Carve(pool, i, n).size && p == Given(pool, i, n)
    {
      p := p0;
      size := size[p := size[p] - n];
      p := p + size[p];
      size := size[p := n];
    }

    /** One turn of malloc's loop round the ring: up to the first block of `n` units, or back to `freep`. */
    method Search(n: nat) returns (prevp: int, p: int, ghost k: nat)
      requires Valid() && freep != 0 && Listed(pool) && n > 0
      ensures k < |pool.fl| && prevp == pool.fl[k] && p == pool.fl[Next(|pool.fl|, k)] && p in size
      ensures var m, s := |pool.fl|, Rover(pool.fl, freep); var j := FirstFit(pool, s, n);
        if j <= s + m then Next(m, k) == Wrap(j, m) && size[p] >= n else p == freep && size[p] < n
    {
      ghost var m, s := |pool.fl|, Rover(pool.fl, freep);
      ghost var j := s + 1;
      k := s;
      prevp := freep;
      assert LinkAt(ptr, pool.fl, k);
      p := ptr[prevp];
      while size[p] < n && p != freep
        invariant k < m && prevp == pool.fl[k] && p == pool.fl[Next(m, k)]
        invariant s < j <= s + m && Next(m, k) == Wrap(j, m) && j <= FirstFit(pool, s, n)
        decreases s + m - j
      {
        k := Next(m, k);
        assert LinkAt(ptr, pool.fl, k);
        prevp := p;
        p := ptr[p];
        j := j + 1;
      }
      assert p == freep ==> j == s + m by { SameAddress(pool.fl, Wrap(j, m), s); }
    }

    /** The rest of malloc when a whole turn found nothing. */
    method Refill(n: nat, core: int) returns (r: int)
      requires Valid() && freep != 0 && n > 0 && (core == -1 || Above(pool, core))
      modifies this
      ensures Valid() && (Value(), r) == if core == -1 then (old(Value()), 0) else Refilled(old(Value()), n, core)
    {
      ghost var a := Value();
      var p := Morecore(n, core);
      if p == 0 { return 0; }
      GrowOk(a, core, CoreUnits(n));
      FitsLess(pool, CoreUnits(n), n);
      r := Hand(n);
    }

    /** A turn that is known to find a block, and the block. */
    method Hand(n: nat) returns (r: int)
      requires Valid() && freep != 0 && n > 0 && Listed(pool) && Fits(pool, n)
      modifies this
      ensures Valid() && (Value(), r) == HandIn(old(Value()), n)
    {
      var prevp, p, i := Turn(n);
      p := Grab(prevp, p, n, i, i - 1);
      r := p + 1;
    }

    /** Search, told by the block it should find. */
    method Turn(n: nat) returns (prevp: int, p: int, ghost i: nat)
      requires Valid() && freep != 0 && n > 0 && Listed(pool)
      ensures p in size && (size[p] >= n <==> Fits(pool, n))
      ensures Fits(pool, n) ==> i == FitOf(Value(), n) && prevp == pool.fl[i - 1] && p == pool.fl[i]
    {
      ghost var k;
      prevp, p, k := Search(n);
      i := Next(|pool.fl|, k);
      Landed(Value(), n, k);
    }

    /** malloc; 0 when sbrk was needed and failed.  The result is the address after the header. */
    method Malloc(nbytes: nat, core: int) returns (r: int)
      requires Valid() && nbytes < UINT && (core == -1 || Above(pool, core))
      modifies this
      ensures Valid() && (Value(), r) == MallocIn(old(Value()), Units(nbytes), core)
    {
      var n := (nbytes + HEADER - 1) % UINT / HEADER + 1;
      SoundListed(pool);
      MallocIs(Value(), n, core);
      Init();
      r := Serve(n, core);
    }

    /** The loop of malloc: at most one turn, more core, and another turn. */
    method Serve(n: nat, core: int) returns (r: int)
      requires Valid() && freep != 0 && n > 0 && Listed(pool) && (core == -1 || Above(pool, core))
      modifies this
      ensures Valid()
      ensures (Value(), r) == old(
        if Fits(pool, n) then HandIn(Value(), n) else if core == -1 then (Value(), 0) else Refilled(Value(), n, core))
    {
      var prevp, p, i := Turn(n);
      if size[p] >= n {
        p := Grab(prevp, p, n, i, i - 1);
        r := p + 1;
      } else {
        r := Refill(n, core);
      }
    }

    /** The first call makes a ring of the empty block alone. */
    method Init()
      requires Valid()
      modifies this
      ensures Valid() && freep == Start(old(Value())) && pool == old(pool)
    {
      if freep == 0 {
        ptr := ptr[base := base];
        freep := base;
        size := size[base := 0];
        assert size == pool.size;
      }
    }
  }
}
