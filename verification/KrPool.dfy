/** The memory behind malloc: every unit obtained from sbrk belongs to exactly one block, free or live. */
module KrPool {

  /** Addresses count header-sized units.  `fl` is the free list in address order, starting with the empty block
      `base`; `size` holds the header sizes; `live` the blocks handed out; `owner` the block of every unit. */
  datatype Pool = Pool(fl: seq<int>, size: map<int, int>, live: set<int>, owner: map<int, int>)

  predicate Sorted(fl: seq<int>) {
    |fl| > 0 && forall i, j :: 0 <= i < j < |fl| ==> fl[i] < fl[j]
  }

  predicate Block(P: Pool, h: int)
    requires |P.fl| > 0
  {
    h in P.live || (h in P.fl && h != P.fl[0])
  }

  ghost predicate Sized(P: Pool)
    requires |P.fl| > 0
  {
    && P.fl[0] in P.size && P.size[P.fl[0]] == 0
    && forall h :: Block(P, h) ==> h in P.size && P.size[h] > 0 && h > P.fl[0]
  }

  /** Each unit has one owner, and each block owns its units. */
  ghost predicate Partition(P: Pool)
    requires |P.fl| > 0 && Sized(P)
  {
    && (forall u :: u in P.owner ==> Block(P, P.owner[u]) && P.owner[u] <= u < P.owner[u] + P.size[P.owner[u]])
    && (forall h, u :: Block(P, h) && h <= u < h + P.size[h] ==> u in P.owner && P.owner[u] == h)
  }

  ghost predicate Sound(P: Pool) {
    Sorted(P.fl) && Sized(P) && Partition(P) && forall h :: h in P.live ==> h !in P.fl
  }

  /** Free block `i` does not end where the next one begins. */
  predicate Gap(fl: seq<int>, size: map<int, int>, i: int)
    requires 0 <= i < |fl| - 1
  {
    fl[i] in size && fl[i] + size[fl[i]] != fl[i + 1]
  }

  /** No two free blocks touch. */
  predicate Apart(fl: seq<int>, size: map<int, int>) {
    forall i :: 0 <= i < |fl| - 1 ==> Gap(fl, size, i)
  }

  ghost predicate Inv(P: Pool) {
    Sound(P) && Apart(P.fl, P.size)
  }

  /** Blocks do not overlap. */
  lemma Disjoint(P: Pool, a: int, b: int)
    requires Sound(P) && Block(P, a) && Block(P, b)
    ensures a < b ==> a + P.size[a] <= b
  {
    assert P.owner[b] == b;
    assert a <= b < a + P.size[a] ==> P.owner[b] == a;
  }

  /** The free list is in address order and its blocks have sizes. */
  predicate Listed(P: Pool) {
    Sorted(P.fl) && forall i :: 0 <= i < |P.fl| ==> P.fl[i] in P.size && P.size[P.fl[i]] >= 0
  }

  lemma SoundListed(P: Pool)
    requires Sound(P)
    ensures Listed(P)
  {
    forall i | 0 <= i < |P.fl| ensures P.fl[i] in P.size && P.size[P.fl[i]] >= 0 { FreeAt(P, i); }
  }

  lemma FreeAt(P: Pool, i: int)
    requires Sound(P) && 0 <= i < |P.fl|
    ensures P.fl[i] in P.size && P.size[P.fl[i]] >= 0 && P.fl[i] >= P.fl[0]
    ensures i > 0 ==> Block(P, P.fl[i])
  {
    if i > 0 { assert P.fl[0] < P.fl[i]; }
  }

  // ---- Returning a block ----

  function InsertAt(fl: seq<int>, t: nat, bp: int): (r: seq<int>)
    requires t < |fl|
    ensures |r| == |fl| + 1 && r[t + 1] == bp
    ensures forall i :: 0 <= i <= t ==> r[i] == fl[i]
    ensures forall i :: t + 1 < i <= |fl| ==> r[i] == fl[i - 1]
    ensures forall h :: h in r <==> h == bp || h in fl
  {
    Inserted(fl, t, bp);
    fl[..t + 1] + [bp] + fl[t + 1..]
  }

  lemma Inserted(fl: seq<int>, t: nat, bp: int)
    requires t < |fl|
    ensures forall h :: h in fl[..t + 1] + [bp] + fl[t + 1..] <==> h == bp || h in fl
  {
    forall h ensures h in fl[..t + 1] + [bp] + fl[t + 1..] <==> h == bp || h in fl {
      assert fl == fl[..t + 1] + fl[t + 1..];
      assert h in fl <==> h in fl[..t + 1] || h in fl[t + 1..];
    }
  }

  function DropAt(fl: seq<int>, t: nat): (r: seq<int>)
    requires 0 < t < |fl| && Sorted(fl)
    ensures |r| == |fl| - 1 && Sorted(r) && r[0] == fl[0]
    ensures forall i :: 0 <= i < t ==> r[i] == fl[i]
    ensures forall i :: t <= i < |r| ==> r[i] == fl[i + 1]
    ensures forall h :: h in r <==> h in fl && h != fl[t]
  {
    DroppedAt(fl, t);
    fl[..t] + fl[t + 1..]
  }

  lemma DroppedAt(fl: seq<int>, t: nat)
    requires 0 < t < |fl| && Sorted(fl)
    ensures forall h :: h in fl[..t] + fl[t + 1..] <==> h in fl && h != fl[t]
  {
    var r := fl[..t] + fl[t + 1..];
    forall h ensures h in r <==> h in fl && h != fl[t] {
      if h in r {
        var i :| 0 <= i < |r| && r[i] == h;
        assert h == fl[if i < t then i else i + 1];
      }
      if h in fl && h != fl[t] {
        var i :| 0 <= i < |fl| && fl[i] == h;
        assert r[if i < t then i else i - 1] == h;
      }
    }
  }

  /** Block `bp` moves from the live blocks to position `t + 1` of the free list. */
  function Put(P: Pool, bp: int, t: nat): (P': Pool)
    requires Listed(P) && Slot(P.fl, bp, t) && bp in P.size && P.size[bp] >= 0
    ensures Listed(P')
  {
    P.(fl := InsertAt(P.fl, t, bp), live := P.live - {bp})
  }

  predicate Slot(fl: seq<int>, bp: int, t: int) {
    0 <= t < |fl| && fl[t] < bp && (t + 1 < |fl| ==> bp < fl[t + 1])
  }

  lemma PutSound(P: Pool, bp: int, t: nat)
    requires Sound(P) && Listed(P) && bp in P.live && Slot(P.fl, bp, t)
    ensures Block(P, bp) && Sound(Put(P, bp, t))
  {
    var P' := Put(P, bp, t);
    assert forall h :: Block(P', h) == Block(P, h);
    assert Sized(P');
    assert Partition(P');
  }

  /** Free blocks `i` and `i + 1` become one. */
  function Join(P: Pool, i: nat): (P': Pool)
    requires Listed(P) && 0 < i < |P.fl| - 1
    ensures Listed(P')
  {
    var a, b := P.fl[i], P.fl[i + 1];
    Pool(DropAt(P.fl, i + 1), P.size[a := P.size[a] + P.size[b]], P.live,
         map u | u in P.owner :: if P.owner[u] == b then a else P.owner[u])
  }

  lemma JoinSound(P: Pool, i: nat)
    requires Sound(P) && Listed(P) && 0 < i < |P.fl| - 1 && !Gap(P.fl, P.size, i)
    ensures Sound(Join(P, i)) && Join(P, i).owner.Keys == P.owner.Keys
  {
    var P', a, b := Join(P, i), P.fl[i], P.fl[i + 1];
    FreeAt(P, i);
    FreeAt(P, i + 1);
    forall h ensures Block(P', h) == (Block(P, h) && h != b) {
    }
    forall h, u | Block(P', h) && h <= u < h + P'.size[h] ensures u in P'.owner && P'.owner[u] == h {
      if h == a {
        assert u in P.owner && (P.owner[u] == a || P.owner[u] == b);
      } else {
        assert u in P.owner && P.owner[u] == h;
      }
    }
  }

  /** The live blocks of `P'` had the same sizes in `P`. */
  ghost predicate SameLive(P: Pool, P': Pool) {
    forall a :: a in P'.live ==> a in P.size && a in P'.size && P'.size[a] == P.size[a]
  }

  /** Every free block but possibly `i` and `k` is followed by a gap. */
  predicate ApartBut(fl: seq<int>, size: map<int, int>, i: int, k: int) {
    forall j :: 0 <= j < |fl| - 1 && j != i && j != k ==> Gap(fl, size, j)
  }

  lemma InsertApart(fl: seq<int>, size: map<int, int>, t: nat, bp: int)
    requires t < |fl| && Apart(fl, size)
    ensures ApartBut(InsertAt(fl, t, bp), size, t, t + 1)
  {
    var fl' := InsertAt(fl, t, bp);
    forall j | 0 <= j < |fl'| - 1 && j != t && j != t + 1 ensures Gap(fl', size, j) {
      assert Gap(fl, size, if j < t then j else j - 1);
    }
  }

  lemma PutApart(P: Pool, bp: int, t: nat)
    requires Inv(P) && Listed(P) && bp in P.live && Slot(P.fl, bp, t)
    ensures Block(P, bp) && ApartBut(Put(P, bp, t).fl, P.size, t, t + 1)
  {
    assert Block(P, bp);
    InsertApart(P.fl, P.size, t, bp);
  }

  /** A join leaves the gap after the second block. */
  lemma JoinApart(P: Pool, i: nat, k: int)
    requires Sound(P) && Listed(P) && 0 < i < |P.fl| - 1 && !Gap(P.fl, P.size, i) && k < i
    requires ApartBut(P.fl, P.size, i, k)
    ensures ApartBut(Join(P, i).fl, Join(P, i).size, k, k)
  {
    var P' := Join(P, i);
    FreeAt(P, i);
    FreeAt(P, i + 1);
    forall j | 0 <= j < |P'.fl| - 1 && j != k ensures Gap(P'.fl, P'.size, j) {
      assert j != i ==> Gap(P.fl, P.size, if j < i then j else j + 1);
      assert j >= i ==> Gap(P.fl, P.size, j + 1);
    }
  }

  lemma JoinLive(P: Pool, i: nat)
    requires Sound(P) && Listed(P) && 0 < i < |P.fl| - 1
    ensures SameLive(P, Join(P, i)) && Join(P, i).size[P.fl[i]] >= P.size[P.fl[i]]
  {
    assert forall a :: a in P.live ==> Block(P, a);
  }

  /** The block after `bp` joins it if they touch. */
  function JoinUp(P: Pool, t: nat): (P': Pool)
    requires Listed(P) && t + 1 < |P.fl|
    ensures Listed(P') && |P'.fl| > t + 1 && P'.fl[0] == P.fl[0] && P'.fl[t] == P.fl[t] && P'.fl[t + 1] == P.fl[t + 1]
  {
    if t + 2 < |P.fl| && !Gap(P.fl, P.size, t + 1) then Join(P, t + 1) else P
  }

  /** `bp` joins the block before it if they touch. */
  function JoinDown(P: Pool, t: nat): (P': Pool)
    requires Listed(P) && t + 1 < |P.fl|
    ensures Listed(P') && |P'.fl| > t && P'.fl[0] == P.fl[0] && P'.fl[t] == P.fl[t]
  {
    if t > 0 && !Gap(P.fl, P.size, t) then Join(P, t) else P
  }

  lemma JoinUpSound(P: Pool, t: nat)
    requires Sound(P) && Listed(P) && t + 1 < |P.fl|
    ensures Sound(JoinUp(P, t)) && JoinUp(P, t).owner.Keys == P.owner.Keys && JoinUp(P, t).live == P.live
  {
    if t + 2 < |P.fl| && !Gap(P.fl, P.size, t + 1) {
      JoinSound(P, t + 1);
      assert JoinUp(P, t) == Join(P, t + 1);
    } else {
      assert JoinUp(P, t) == P;
    }
  }

  lemma JoinUpApart(P: Pool, t: nat)
    requires Sound(P) && Listed(P) && t + 1 < |P.fl| && ApartBut(P.fl, P.size, t, t + 1)
    ensures ApartBut(JoinUp(P, t).fl, JoinUp(P, t).size, t, t)
  {
    if t + 2 < |P.fl| && !Gap(P.fl, P.size, t + 1) { JoinApart(P, t + 1, t); }
  }

  lemma JoinUpLive(P: Pool, t: nat)
    requires Sound(P) && Listed(P) && t + 1 < |P.fl|
    ensures var P' := JoinUp(P, t);
      SameLive(P, P') && P.fl[t + 1] in P.size && P.fl[t + 1] in P'.size && P'.size[P.fl[t + 1]] >= P.size[P.fl[t + 1]]
  {
    assert forall a :: a in P.live ==> Block(P, a);
    if t + 2 < |P.fl| && !Gap(P.fl, P.size, t + 1) { JoinLive(P, t + 1); }
  }

  /** Free block `t` or the one after it has `n` units. */
  predicate Holds(P: Pool, t: nat, n: int) {
    || (t < |P.fl| && P.fl[t] in P.size && P.size[P.fl[t]] >= n)
    || (t + 1 < |P.fl| && P.fl[t + 1] in P.size && P.size[P.fl[t + 1]] >= n)
  }

  lemma JoinDownInv(P: Pool, t: nat)
    requires Sound(P) && Listed(P) && t + 1 < |P.fl| && ApartBut(P.fl, P.size, t, t)
    ensures var P' := JoinDown(P, t);
      && Inv(P') && P'.owner.Keys == P.owner.Keys && P'.live == P.live
      && t < |P'.fl| && P'.fl[t] == P.fl[t]
      && SameLive(P, P') && P.fl[t + 1] in P.size && Holds(P', t, P.size[P.fl[t + 1]])
  {
    FreeAt(P, t);
    FreeAt(P, t + 1);
    if t > 0 && !Gap(P.fl, P.size, t) {
      JoinLive(P, t);
      JoinSound(P, t);
      JoinApart(P, t, -1);
    }
  }

  /** What free does to the pool, `t` being the position of the free block before `bp`. */
  function Released(P: Pool, bp: int, t: nat): (P': Pool)
    requires Listed(P) && Slot(P.fl, bp, t) && bp in P.size && P.size[bp] >= 0
    ensures Listed(P') && |P'.fl| > t && P'.fl[0] == P.fl[0] && P'.fl[t] == P.fl[t]
  {
    JoinDown(JoinUp(Put(P, bp, t), t), t)
  }

  /** Releasing a block keeps the pool in order and every unit in it; the other live blocks are as they were. */
  lemma ReleasedInv(P: Pool, bp: int, t: nat)
    requires Inv(P) && Listed(P) && bp in P.live && Slot(P.fl, bp, t)
    ensures Block(P, bp) && var P' := Released(P, bp, t);
      && Inv(P') && P'.owner.Keys == P.owner.Keys && P'.live == P.live - {bp} && SameLive(P, P')
      && t < |P'.fl| && P'.fl[t] == P.fl[t] && bp in P.size && Holds(P', t, P.size[bp])
  {
    PutSound(P, bp, t);
    PutApart(P, bp, t);
    JoinUpSound(Put(P, bp, t), t);
    JoinUpApart(Put(P, bp, t), t);
    JoinUpLive(Put(P, bp, t), t);
    JoinDownInv(JoinUp(Put(P, bp, t), t), t);
  }

  // ---- Handing out a block ----

  /** Free block `i` gives its last `n` units, or all of itself. */
  function Handed(P: Pool, i: nat, n: nat): Pool
    requires Sound(P) && 0 < i < |P.fl|
  {
    FreeAt(P, i);
    if P.size[P.fl[i]] == n then Take(P, i) else Carve(P, i, n)
  }

  /** The header of the block that is handed out. */
  function Given(P: Pool, i: nat, n: nat): int
    requires Sound(P) && 0 < i < |P.fl|
  {
    FreeAt(P, i);
    P.fl[i] + P.size[P.fl[i]] - n
  }

  /** Handing out a block keeps the pool in order and every unit in it; the block is new, has `n` units, and no
      other live block changes. */
  lemma HandedInv(P: Pool, i: nat, n: nat)
    requires Inv(P) && 0 < i < |P.fl| && 0 < n && P.fl[i] in P.size && n <= P.size[P.fl[i]]
    ensures var P' := Handed(P, i, n); var h := Given(P, i, n);
      && Inv(P') && P'.owner.Keys == P.owner.Keys && P'.fl[0] == P.fl[0]
      && !(h in P.live) && P'.live == P.live + {h} && h in P'.size && P'.size[h] == n && h > P.fl[0]
      && (forall a :: a in P.live ==> a in P.size && a in P'.size && P'.size[a] == P.size[a])
  {
    FreeAt(P, i);
    if P.size[P.fl[i]] == n {
      TakeSound(P, i);
      TakeApart(P, i);
      assert forall a :: a in P.live ==> Block(P, a);
    } else {
      CarveSound(P, i, n);
      CarveApart(P, i, n);
      CarveLive(P, i, n);
    }
  }

  lemma CarveLive(P: Pool, i: nat, n: nat)
    requires Sound(P) && CanCarve(P, i, n)
    ensures forall a :: a in P.live ==> a in P.size && a in Carve(P, i, n).size && Carve(P, i, n).size[a] == P.size[a]
  {
    FreeAt(P, i);
    TailIsNew(P, P.fl[i], P.fl[i] + P.size[P.fl[i]] - n);
    assert forall a :: a in P.live ==> Block(P, a);
  }

  /** The last `n` units of free block `i` become a live block. */
  function Carve(P: Pool, i: nat, n: nat): Pool
    requires Sound(P) && 0 < i < |P.fl|
  {
    FreeAt(P, i);
    var a := P.fl[i];
    var tail := a + P.size[a] - n;
    Pool(P.fl, P.size[a := P.size[a] - n][tail := n], P.live + {tail},
         map u | u in P.owner :: if P.owner[u] == a && u >= tail then tail else P.owner[u])
  }

  predicate CanCarve(P: Pool, i: nat, n: nat) {
    0 < i < |P.fl| && 0 < n && P.fl[i] in P.size && n < P.size[P.fl[i]]
  }

  lemma CarveBlocks(P: Pool, i: nat, n: nat)
    requires Sound(P) && CanCarve(P, i, n)
    ensures var P' := Carve(P, i, n); var tail := P.fl[i] + P.size[P.fl[i]] - n;
      && !Block(P, tail) && tail !in P.fl && (forall h :: Block(P', h) == (Block(P, h) || h == tail)) && Sized(P')
  {
    FreeAt(P, i);
    TailIsNew(P, P.fl[i], P.fl[i] + P.size[P.fl[i]] - n);
  }

  /** Each block of the carved pool owns its units. */
  lemma CarveUnits(P: Pool, i: nat, n: nat, h: int, u: int)
    requires Sound(P) && CanCarve(P, i, n)
    ensures var P' := Carve(P, i, n);
      Block(P', h) && h in P'.size && h <= u < h + P'.size[h] ==> u in P'.owner && P'.owner[u] == h
  {
    var a := P.fl[i];
    FreeAt(P, i);
    CarveBlocks(P, i, n);
    CarveOwner(P, a, a + P.size[a] - n, h, u);
  }

  lemma CarveInside(P: Pool, i: nat, n: nat, u: int)
    requires Sound(P) && CanCarve(P, i, n)
    ensures var P' := Carve(P, i, n);
      u in P'.owner ==>
        Block(P', P'.owner[u]) && P'.owner[u] in P'.size && P'.owner[u] <= u < P'.owner[u] + P'.size[P'.owner[u]]
  {
    FreeAt(P, i);
    CarveBlocks(P, i, n);
    if u in P.owner { assert Block(P, P.owner[u]); }
  }

  lemma CarveSound(P: Pool, i: nat, n: nat)
    requires Sound(P) && CanCarve(P, i, n)
    ensures Sound(Carve(P, i, n)) && Carve(P, i, n).owner.Keys == P.owner.Keys
    ensures !Block(P, P.fl[i] + P.size[P.fl[i]] - n)
  {
    var P' := Carve(P, i, n);
    CarveBlocks(P, i, n);
    assert Partition(P') by {
      forall h, u | Block(P', h) && h <= u < h + P'.size[h]
        ensures u in P'.owner && P'.owner[u] == h
      {
        CarveUnits(P, i, n, h, u);
      }
      forall u | u in P'.owner ensures Block(P', P'.owner[u]) && P'.owner[u] <= u < P'.owner[u] + P'.size[P'.owner[u]] {
        CarveInside(P, i, n, u);
      }
    }
  }

  lemma TailIsNew(P: Pool, a: int, tail: int)
    requires Sound(P) && Block(P, a) && a < tail < a + P.size[a]
    ensures !Block(P, tail) && tail !in P.fl
  {
    if Block(P, tail) { Disjoint(P, a, tail); }
  }

  lemma CarveOwner(P: Pool, a: int, tail: int, h: int, u: int)
    requires Sound(P) && Block(P, a) && a < tail < a + P.size[a]
    ensures Block(P, h) && h != a && h <= u < h + P.size[h] ==> u in P.owner && P.owner[u] == h
    ensures a <= u < a + P.size[a] ==> u in P.owner && P.owner[u] == a
  {
  }

  lemma CarveApart(P: Pool, i: nat, n: nat)
    requires Inv(P) && CanCarve(P, i, n)
    ensures Apart(Carve(P, i, n).fl, Carve(P, i, n).size)
  {
    var P', a := Carve(P, i, n), P.fl[i];
    FreeAt(P, i);
    TailIsNew(P, a, a + P.size[a] - n);
    forall j | 0 <= j < |P.fl| - 1 ensures Gap(P'.fl, P'.size, j) {
      assert Gap(P.fl, P.size, j);
      FreeAt(P, i + if j == i then 1 else 0);
      if j == i { Disjoint(P, a, P.fl[i + 1]); }
    }
  }

  /** Free block `i` becomes live as it is. */
  function Take(P: Pool, i: nat): Pool
    requires Sound(P) && 0 < i < |P.fl|
  {
    P.(fl := DropAt(P.fl, i), live := P.live + {P.fl[i]})
  }

  lemma TakeSound(P: Pool, i: nat)
    requires Sound(P) && 0 < i < |P.fl|
    ensures Sound(Take(P, i)) && P.fl[i] !in P.live
  {
    var P' := Take(P, i);
    FreeAt(P, i);
    forall h ensures Block(P', h) == Block(P, h) {
    }
  }

  lemma TakeApart(P: Pool, i: nat)
    requires Inv(P) && 0 < i < |P.fl|
    ensures Apart(Take(P, i).fl, P.size)
  {
    var fl' := Take(P, i).fl;
    forall j | 0 <= j < |fl'| - 1 ensures Gap(fl', P.size, j) {
      assert Gap(P.fl, P.size, j) && Gap(P.fl, P.size, j + 1);
      FreeAt(P, j);
      FreeAt(P, i);
      if j == i - 1 && j > 0 { Disjoint(P, P.fl[j], P.fl[i]); }
    }
  }

  // ---- More core ----

  /** A chunk of `n` units at `c`, not yet on the free list. */
  function Grow(P: Pool, c: int, n: nat): Pool {
    Pool(P.fl, P.size[c := n], P.live + {c},
         map u | u in P.owner.Keys + Chunk(c, n) :: if u in Chunk(c, n) then c else P.owner[u])
  }

  function Chunk(c: int, n: nat): set<int> { set u {:trigger InChunk(u, c, n)} | c <= u < c + n && InChunk(u, c, n) }

  predicate InChunk(u: int, c: int, n: nat) { c <= u < c + n }

  lemma GrowSound(P: Pool, c: int, n: nat)
    requires Sound(P) && n > 0 && c > P.fl[0] && forall u :: u in P.owner ==> u < c
    ensures Sound(Grow(P, c, n)) && Grow(P, c, n).owner.Keys == P.owner.Keys + Chunk(c, n) && !Block(P, c)
  {
    var P' := Grow(P, c, n);
    assert Block(P, c) ==> c in P.owner;
    forall h ensures Block(P', h) == (Block(P, h) || h == c) {
    }
    forall h, u | Block(P', h) && h <= u < h + P'.size[h] ensures u in P'.owner && P'.owner[u] == h {
      assert InChunk(u, c, n) || (u in P.owner && P.owner[u] == h);
    }
    forall u | u in P'.owner ensures Block(P', P'.owner[u]) && P'.owner[u] <= u < P'.owner[u] + P'.size[P'.owner[u]] {
    }
  }

  lemma GrowApart(P: Pool, c: int, n: nat)
    requires Inv(P) && !Block(P, c) && c > P.fl[0]
    ensures Apart(Grow(P, c, n).fl, Grow(P, c, n).size)
  {
    var P' := Grow(P, c, n);
    forall j | 0 <= j < |P.fl| - 1 ensures Gap(P'.fl, P'.size, j) {
      assert Gap(P.fl, P.size, j);
      FreeAt(P, j);
    }
  }
}
