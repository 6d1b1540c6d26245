/** bio.c: the buffer cache refines a plain map from block numbers to contents. */
module BufferCache {
  import opened Helpers
  import opened BufferRing

  /** struct buf.  Its refcnt is split by what the references are for: callers between bget's scan and the sleep
      lock, the holder of the sleep lock, and callers of brelse between unlocking and giving the reference up. */
  datatype Buf = Buf(dev: nat, blk: nat, valid: bool, dirty: bool, waiting: nat, locked: bool, leaving: nat, data: int)

  function Refcnt(b: Buf): nat { b.waiting + b.leaving + if b.locked then 1 else 0 }

  /** The buffers, their list from most to least recently released, the disk, and the time of each release. */
  datatype Cache = Cache(bufs: seq<Buf>, order: seq<int>, disk: seq<int>, stamp: seq<int>, clock: int)

  /** Calls, cut where a lock is given up: bget up to the sleep lock, the sleep lock, bread's disk read, a store
      into the buffer by the holder, log_write, bwrite, and the two halves of brelse. */
  datatype Event = Get(dev: nat, blk: nat) | Lock(b: int) | Fetch(b: int) | Modify(b: int, d: int) | Pin(b: int)
    | Write(b: int) | Unlock(b: int) | Deref(b: int)

  // ---- bget ----

  predicate InRange(bufs: seq<Buf>, order: seq<int>) {
    forall i :: 0 <= i < |order| ==> 0 <= order[i] < |bufs|
  }

  predicate HasKey(b: Buf, dev: nat, blk: nat) { b.dev == dev && b.blk == blk }

  predicate Idle(b: Buf) { Refcnt(b) == 0 && !b.dirty }

  /** The first buffer in list order, from position `k`, that holds the block. */
  function FindKey(bufs: seq<Buf>, order: seq<int>, dev: nat, blk: nat, k: nat): (r: nat)
    requires InRange(bufs, order) && k <= |order|
    ensures k <= r <= |order|
    ensures r < |order| ==> HasKey(bufs[order[r]], dev, blk)
    ensures forall i :: k <= i < r ==> !HasKey(bufs[order[i]], dev, blk)
    decreases |order| - k
  {
    if k == |order| || HasKey(bufs[order[k]], dev, blk) then k else FindKey(bufs, order, dev, blk, k + 1)
  }

  /** The last idle buffer below position `k`, or -1. */
  function FindIdle(bufs: seq<Buf>, order: seq<int>, k: nat): (r: int)
    requires InRange(bufs, order) && k <= |order|
    ensures -1 <= r < k
    ensures r >= 0 ==> Idle(bufs[order[r]])
    ensures forall i :: r < i < k ==> !Idle(bufs[order[i]])
  {
    if k == 0 || Idle(bufs[order[k - 1]]) then k - 1 else FindIdle(bufs, order, k - 1)
  }

  /** bget's scans: the buffer, and the buffers after the reference is counted.  -1 is the panic. */
  function Scan(bufs: seq<Buf>, order: seq<int>, dev: nat, blk: nat): (r: (seq<Buf>, int))
    requires InRange(bufs, order)
    ensures |r.0| == |bufs| && -1 <= r.1 < |bufs|
  {
    var k := FindKey(bufs, order, dev, blk, 0);
    if k < |order| then
      var b := order[k];
      (bufs[b := bufs[b].(waiting := bufs[b].waiting + 1)], b)
    else
      var v := FindIdle(bufs, order, |order|);
      if v < 0 then (bufs, -1) else
        var b := order[v];
        (bufs[b := Buf(dev, blk, false, false, 1, false, 0, bufs[b].data)], b)
  }

  /** brelse's list move. */
  function ToFront(order: seq<int>, b: int): seq<int>
    requires b in order
  {
    [b] + Without(order, Position(order, b))
  }

  function Position(order: seq<int>, b: int): (k: nat)
    requires b in order
    ensures k < |order| && order[k] == b
  {
    if order[0] == b then 0 else Position(order[1..], b) + 1
  }

  // ---- The ring in place ----

  class Bcache {
    var bufs: seq<Buf>
    var next: seq<int> // node |bufs| is the head
    var prev: seq<int>
    ghost var order: seq<int>

    ghost predicate Valid()
      reads this
    {
      |next| == |bufs| + 1 && Linked(next, prev, order, |bufs|)
    }

    /** binit: the buffers end up in the ring once each, the last one in front. */
    constructor (n: nat)
      ensures Valid() && |bufs| == n
      ensures order == seq(n, i requires 0 <= i < n => n - 1 - i)
      ensures forall i :: 0 <= i < n ==> bufs[i] == Buf(0, 0, false, false, 0, false, 0, 0)
    {
      bufs := seq(n, _ => Buf(0, 0, false, false, 0, false, 0, 0));
      next := seq(n + 1, _ => n);
      prev := seq(n + 1, _ => n);
      order := [];
      new;
      assert LinkAt(next, prev, [], n, 0);
      var b := 0;
      while b < n
        invariant 0 <= b <= n && |bufs| == n && Valid() && |order| == b
        invariant forall i :: 0 <= i < b ==> order[i] == b - 1 - i
        invariant forall i :: 0 <= i < n ==> bufs[i] == Buf(0, 0, false, false, 0, false, 0, 0)
      {
        PushFront(b);
        b := b + 1;
      }
    }

    method PushFront(b: int)
      requires Valid() && 0 <= b < |bufs| && b !in order
      modifies this`next, this`prev, this`order
      ensures Valid() && order == [b] + old(order)
    {
      var head := |bufs|;
      Push(next, prev, order, head, b);
      var first := next[head];
      next := next[b := first];
      prev := prev[b := head];
      prev := prev[first := b];
      next := next[head := b];
      order := [b] + order;
    }

    /** bget up to the sleep lock; -1 when it panics. */
    method Bget(dev: nat, blk: nat) returns (b: int)
      requires Valid()
      modifies this`bufs
      ensures Valid() && (bufs, b) == Scan(old(bufs), order, dev, blk)
    {
      var head := |bufs|;
      ghost var n := |order|;
      ghost var i := 0;
      ghost var k := FindKey(bufs, order, dev, blk, 0);
      assert LinkAt(next, prev, order, head, 0);
      b := next[head];
      while b != head
        invariant 0 <= i <= n && i <= k && b == At(order, head, i)
        decreases n - i
      {
        if bufs[b].dev == dev && bufs[b].blk == blk {
          bufs := bufs[b := bufs[b].(waiting := bufs[b].waiting + 1)];
          return;
        }
        assert LinkAt(next, prev, order, head, i + 1);
        b := next[b];
        i := i + 1;
      }
      ghost var v := FindIdle(bufs, order, n);
      ghost var j := n - 1;
      assert LinkAt(next, prev, order, head, n);
      b := prev[head];
      while b != head
        invariant -1 <= j < n && v <= j && b == At(order, head, j)
        decreases j + 1
      {
        if Refcnt(bufs[b]) == 0 && !bufs[b].dirty {
          bufs := bufs[b := Buf(dev, blk, false, false, 1, false, 0, bufs[b].data)];
          return;
        }
        assert LinkAt(next, prev, order, head, j);
        b := prev[b];
        j := j - 1;
      }
      b := -1;
    }

    /** The second half of brelse. */
    method Deref(b: int)
      requires Valid() && 0 <= b < |bufs| && b in order && bufs[b].leaving > 0
      modifies this
      ensures Valid() && bufs == old(bufs)[b := old(bufs)[b].(leaving := old(bufs)[b].leaving - 1)]
      ensures order == if Refcnt(bufs[b]) == 0 then ToFront(old(order), b) else old(order)
    {
      bufs := bufs[b := bufs[b].(leaving := bufs[b].leaving - 1)];
      if Refcnt(bufs[b]) == 0 {
        ghost var k := Position(order, b);
        BufferRing.Unlink(next, prev, order, |bufs|, k);
        var after, before := next[b], prev[b];
        prev := prev[after := before];
        next := next[before := after];
        order := Without(order, k);
        PushFront(b);
      }
    }
  }

  // ---- Every sequence of calls ----

  predicate Has(c: Cache, b: int) { 0 <= b < |c.bufs| }

  /** One step; None when the call cannot happen there: the lock is taken, the caller does not hold it or did not
      read the block first, or the kernel panics. */
  function Step(c: Cache, e: Event): Option<Cache>
    requires InRange(c.bufs, c.order)
  {
    match e
    case Get(dev, blk) =>
      var (bufs, b) := Scan(c.bufs, c.order, dev, blk);
      if b < 0 then None else Some(c.(bufs := bufs))
    case Lock(b) =>
      if Has(c, b) && !c.bufs[b].locked && c.bufs[b].waiting > 0
      then Some(c.(bufs := c.bufs[b := c.bufs[b].(locked := true, waiting := c.bufs[b].waiting - 1)])) else None
    case Fetch(b) =>
      if !Has(c, b) || !c.bufs[b].locked then None
      else if c.bufs[b].valid then Some(c)
      else if c.bufs[b].dev != 1 || c.bufs[b].blk >= |c.disk| then None
      else Some(c.(bufs := c.bufs[b := c.bufs[b].(valid := true, data := c.disk[c.bufs[b].blk])]))
    case Modify(b, d) =>
      if Has(c, b) && c.bufs[b].locked && c.bufs[b].valid
      then Some(c.(bufs := c.bufs[b := c.bufs[b].(data := d)])) else None
    case Pin(b) =>
      if Has(c, b) && c.bufs[b].locked && c.bufs[b].valid
      then Some(c.(bufs := c.bufs[b := c.bufs[b].(dirty := true)])) else None
    case Write(b) =>
      if Has(c, b) && c.bufs[b].locked && c.bufs[b].valid && c.bufs[b].blk < |c.disk|
      then Some(c.(bufs := c.bufs[b := c.bufs[b].(dirty := false)], disk := c.disk[c.bufs[b].blk := c.bufs[b].data]))
      else None
    case Unlock(b) =>
      if Has(c, b) && c.bufs[b].locked
      then Some(c.(bufs := c.bufs[b := c.bufs[b].(locked := false, leaving := c.bufs[b].leaving + 1)])) else None
    case Deref(b) =>
      if !Has(c, b) || c.bufs[b].leaving == 0 || b !in c.order || |c.stamp| != |c.bufs| then None else
        var c1 := c.(bufs := c.bufs[b := c.bufs[b].(leaving := c.bufs[b].leaving - 1)]);
        if Refcnt(c1.bufs[b]) > 0 then Some(c1)
        else Some(c1.(order := ToFront(c.order, b), stamp := c.stamp[b := c.clock], clock := c.clock + 1))
  }

  /** What the buffer holds is on disk, or marked to get there. */
  predicate Settled(c: Cache, b: Buf) {
    b.valid && !b.dirty ==> b.blk < |c.disk| && b.data == c.disk[b.blk]
  }

  /** Not a release of changed data that was neither logged nor written. */
  predicate Orderly(c: Cache, e: Event) { e.Unlock? && Has(c, e.b) ==> Settled(c, c.bufs[e.b]) }

  // ---- The list ----

  /** Every buffer is in the list once, most recently released first. */
  ghost predicate Listed(c: Cache) {
    && |c.order| == |c.bufs| == |c.stamp| && Nodes(c.order, |c.bufs|)
    && (forall b :: Has(c, b) ==> b in c.order && c.stamp[b] < c.clock)
    && Falling(c.order, c.stamp)
  }

  /** No block of a real device is in two buffers. */
  ghost predicate UniqueKeys(c: Cache) {
    forall a, b ::
      Has(c, a) && Has(c, b) && c.bufs[a].dev != 0 && HasKey(c.bufs[b], c.bufs[a].dev, c.bufs[a].blk) ==> a == b
  }

  predicate BufOk(c: Cache, b: Buf) {
    && (b.dirty ==> b.valid)
    && (b.valid ==> b.dev == 1 && b.blk < |c.disk|)
    && (!b.locked ==> Settled(c, b))
  }

  ghost predicate Inv(c: Cache) {
    Listed(c) && UniqueKeys(c) && forall b :: Has(c, b) ==> BufOk(c, c.bufs[b])
  }

  lemma ScanGives(c: Cache, dev: nat, blk: nat)
    requires Inv(c)
    ensures var (bufs, b) := Scan(c.bufs, c.order, dev, blk);
      b >= 0 ==>
        && bufs == c.bufs[b := bufs[b]] && HasKey(bufs[b], dev, blk) && BufOk(c, bufs[b])
        && (HasKey(c.bufs[b], dev, blk) ==> bufs[b] == c.bufs[b].(waiting := c.bufs[b].waiting + 1))
        && (!HasKey(c.bufs[b], dev, blk) ==>
             Idle(c.bufs[b]) && !bufs[b].valid && forall a :: Has(c, a) ==> !HasKey(c.bufs[a], dev, blk))
  {
    var k := FindKey(c.bufs, c.order, dev, blk, 0);
    if k == |c.order| {
      forall a | Has(c, a) ensures !HasKey(c.bufs[a], dev, blk) {
        assert c.order[Position(c.order, a)] == a;
      }
    }
  }

  lemma GetInv(c: Cache, dev: nat, blk: nat)
    requires Inv(c) && Step(c, Get(dev, blk)).Some?
    ensures Inv(Step(c, Get(dev, blk)).value)
  {
    ScanGives(c, dev, blk);
    var c' := Step(c, Get(dev, blk)).value;
    forall b | Has(c', b) ensures BufOk(c', c'.bufs[b]) { assert BufOk(c, c.bufs[b]); }
  }

  /** The list after the move: `b`, then the rest in the old order. */
  lemma FrontAt(order: seq<int>, b: int, n: int)
    requires Nodes(order, n) && b in order
    ensures var order', k := ToFront(order, b), Position(order, b);
      && |order'| == |order| && order'[0] == b
      && forall i :: 1 <= i < |order'| ==> order'[i] == order[if i <= k then i - 1 else i] && order'[i] != b
  {
  }

  lemma FrontNodes(order: seq<int>, b: int, n: int)
    requires Nodes(order, n) && b in order
    ensures Nodes(ToFront(order, b), n) && forall a :: a in order ==> a in ToFront(order, b)
  {
    FrontAt(order, b, n);
    var order', k := ToFront(order, b), Position(order, b);
    forall a | a in order ensures a in order' {
      var i := Position(order, a);
      assert order'[if i < k then i + 1 else if i == k then 0 else i] == a;
    }
  }

  /** Stamps fall along the list. */
  predicate Falling(order: seq<int>, stamp: seq<int>)
    requires Nodes(order, |stamp|)
  {
    forall i, j :: 0 <= i < j < |order| ==> stamp[order[i]] > stamp[order[j]]
  }

  lemma FrontFalls(order: seq<int>, stamp: seq<int>, b: int, clock: int)
    requires Nodes(order, |stamp|) && Falling(order, stamp) && b in order && 0 <= b < |stamp|
    requires forall i :: 0 <= i < |order| ==> stamp[order[i]] < clock
    ensures Nodes(ToFront(order, b), |stamp|) && Falling(ToFront(order, b), stamp[b := clock])
  {
    FrontNodes(order, b, |stamp|);
    FrontAt(order, b, |stamp|);
    var k := Position(order, b);
    var order', stamp' := ToFront(order, b), stamp[b := clock];
    forall i, j | 0 <= i < j < |order'| ensures stamp'[order'[i]] > stamp'[order'[j]] {
      var i0, j0 := if i <= k then i - 1 else i, if j <= k then j - 1 else j;
      assert order'[j] == order[j0] && stamp[order[j0]] < clock;
      if i > 0 { assert order'[i] == order[i0] && i0 < j0; }
    }
  }

  lemma FrontListed(c: Cache, b: int)
    requires Listed(c) && Has(c, b)
    ensures Listed(c.(order := ToFront(c.order, b), stamp := c.stamp[b := c.clock], clock := c.clock + 1))
  {
    assert forall i :: 0 <= i < |c.order| ==> Has(c, c.order[i]);
    FrontNodes(c.order, b, |c.bufs|);
    FrontFalls(c.order, c.stamp, b, c.clock);
  }

  /** Every step but such a release keeps the invariant, and such a release never does. */
  lemma StepInv(c: Cache, e: Event)
    requires Inv(c) && Step(c, e).Some?
    ensures Inv(Step(c, e).value) <==> Orderly(c, e)
  {
    if e.Get? {
      GetInv(c, e.dev, e.blk);
    } else {
      var c' := Step(c, e).value;
      SameKeys(c, e);
      ListedStep(c, e);
      if Orderly(c, e) { OthersOk(c, e); } else { assert Has(c', e.b) && !BufOk(c', c'.bufs[e.b]); }
    }
  }

  lemma SameKeys(c: Cache, e: Event)
    requires UniqueKeys(c) && InRange(c.bufs, c.order) && Step(c, e).Some? && !e.Get?
    ensures UniqueKeys(Step(c, e).value)
  {
    var c' := Step(c, e).value;
    assert forall a :: Has(c, a) ==> c'.bufs[a].dev == c.bufs[a].dev && c'.bufs[a].blk == c.bufs[a].blk;
  }

  lemma ListedStep(c: Cache, e: Event)
    requires Listed(c) && Step(c, e).Some? && !e.Get?
    ensures Listed(Step(c, e).value)
  {
    if e.Deref? { FrontListed(c.(bufs := Step(c, e).value.bufs), e.b); }
  }

  lemma OthersOk(c: Cache, e: Event)
    requires Inv(c) && Step(c, e).Some? && !e.Get? && Orderly(c, e)
    ensures var c' := Step(c, e).value; forall a :: Has(c', a) ==> BufOk(c', c'.bufs[a])
  {
    var c' := Step(c, e).value;
    forall a | Has(c', a) ensures BufOk(c', c'.bufs[a]) {
      assert BufOk(c, c.bufs[a]) && BufOk(c, c.bufs[e.b]);
      if e.Write? && a != e.b && c.bufs[a].valid { assert c.bufs[a].blk != c.bufs[e.b].blk; }
    }
  }

  // ---- Recycling ----

  /** bget recycles the least recently released buffer among those without references and without logged changes,
      and panics exactly when the block is not cached and there is no such buffer. */
  lemma Recycles(c: Cache, dev: nat, blk: nat)
    requires Inv(c)
    ensures var b := Scan(c.bufs, c.order, dev, blk).1;
      && (b < 0 <==> forall a :: Has(c, a) ==> !HasKey(c.bufs[a], dev, blk) && !Idle(c.bufs[a]))
      && (b >= 0 && !HasKey(c.bufs[b], dev, blk) ==>
           Idle(c.bufs[b]) && forall a :: Has(c, a) && Idle(c.bufs[a]) ==> c.stamp[b] <= c.stamp[a])
  {
    ScanGives(c, dev, blk);
    var k, v := FindKey(c.bufs, c.order, dev, blk, 0), FindIdle(c.bufs, c.order, |c.order|);
    forall a | Has(c, a)
      ensures k == |c.order| && v < 0 ==> !HasKey(c.bufs[a], dev, blk) && !Idle(c.bufs[a])
      ensures k == |c.order| && v >= 0 && Idle(c.bufs[a]) ==> c.stamp[c.order[v]] <= c.stamp[a]
    {
      assert c.order[Position(c.order, a)] == a;
    }
  }

  // ---- Refinement ----

  /** The content of block `x`: what a valid buffer holds for it, else what is on disk. */
  function View(c: Cache, x: nat): int
    requires x < |c.disk|
  {
    var b := Holder(c.bufs, x, 0);
    if b < |c.bufs| then c.bufs[b].data else c.disk[x]
  }

  predicate Holds(b: Buf, x: nat) { b.valid && b.dev == 1 && b.blk == x }

  function Holder(bufs: seq<Buf>, x: nat, k: nat): (b: nat)
    requires k <= |bufs|
    ensures k <= b <= |bufs|
    ensures b < |bufs| ==> Holds(bufs[b], x)
    ensures forall a :: k <= a < b ==> !Holds(bufs[a], x)
    decreases |bufs| - k
  {
    if k == |bufs| || Holds(bufs[k], x) then k else Holder(bufs, x, k + 1)
  }

  lemma ViewIs(c: Cache, x: nat, b: int)
    requires Inv(c) && x < |c.disk| && Has(c, b)
    ensures Holds(c.bufs[b], x) ==> View(c, x) == c.bufs[b].data
  {
    var h := Holder(c.bufs, x, 0);
    assert Holds(c.bufs[b], x) ==> h < |c.bufs| && HasKey(c.bufs[h], 1, x) && HasKey(c.bufs[b], 1, x);
  }

  /** A cache in which no valid buffer holds `x` shows the disk. */
  lemma ViewDisk(c: Cache, x: nat)
    requires x < |c.disk| && forall a :: Has(c, a) ==> !Holds(c.bufs[a], x)
    ensures View(c, x) == c.disk[x]
  {
  }

  /** Every step keeps the content of every block, except that a store by the holder of a buffer sets the content
      of the block it holds.  A buffer that was fetched shows the content of its block. */
  lemma StepView(c: Cache, e: Event, x: nat)
    requires Inv(c) && Step(c, e).Some? && x < |c.disk| && Orderly(c, e)
    ensures var c' := Step(c, e).value;
      && |c'.disk| == |c.disk|
      && View(c', x) == (if e.Modify? && c.bufs[e.b].blk == x then e.d else View(c, x))
      && (e.Fetch? ==> Has(c', e.b) && c'.bufs[e.b].valid)
      && (e.Fetch? && c'.bufs[e.b].blk == x ==> c'.bufs[e.b].data == View(c', x))
  {
    StepInv(c, e);
    var c' := Step(c, e).value;
    var h := Holder(c.bufs, x, 0);
    if h < |c.bufs| {
      HeldView(c, e, x, h);
    } else {
      UnheldView(c, e, x);
    }
    if e.Fetch? { ViewIs(c', x, e.b); assert BufOk(c', c'.bufs[e.b]); }
  }

  /** The case that some buffer holds `x`. */
  lemma HeldView(c: Cache, e: Event, x: nat, h: int)
    requires Inv(c) && Step(c, e).Some? && Inv(Step(c, e).value) && x < |c.disk| && Has(c, h) && Holds(c.bufs[h], x)
    ensures var c' := Step(c, e).value;
      |c'.disk| == |c.disk| && View(c', x) == (if e.Modify? && c.bufs[e.b].blk == x then e.d else View(c, x))
  {
    var c' := Step(c, e).value;
    ViewIs(c, x, h);
    if e.Get? {
      ScanGives(c, e.dev, e.blk);
      ViewIs(c', x, h);
      assert BufOk(c, c.bufs[h]);
      if !Holds(c'.bufs[h], x) {
        forall a | Has(c', a) ensures !Holds(c'.bufs[a], x) { OnlyHolder(c, x, h, a); }
        ViewDisk(c', x);
      }
    } else {
      assert Holds(c'.bufs[h], x);
      ViewIs(c', x, h);
      OnlyHolder(c, x, h, e.b);
      assert BufOk(c, c.bufs[e.b]);
    }
  }

  lemma OnlyHolder(c: Cache, x: nat, h: int, a: int)
    requires Inv(c) && Has(c, h) && Holds(c.bufs[h], x) && Has(c, a)
    ensures Holds(c.bufs[a], x) ==> a == h
  {
    assert HasKey(c.bufs[h], 1, x);
    assert Holds(c.bufs[a], x) ==> HasKey(c.bufs[a], 1, x);
  }

  /** The case that no buffer holds `x`. */
  lemma UnheldView(c: Cache, e: Event, x: nat)
    requires Inv(c) && Step(c, e).Some? && Inv(Step(c, e).value) && x < |c.disk|
    requires forall a :: Has(c, a) ==> !Holds(c.bufs[a], x)
    ensures var c' := Step(c, e).value;
      |c'.disk| == |c.disk| && View(c', x) == (if e.Modify? && c.bufs[e.b].blk == x then e.d else View(c, x))
  {
    var c' := Step(c, e).value;
    ViewDisk(c, x);
    if e.Get? { UnheldGet(c, e.dev, e.blk, x); } else { UnheldOther(c, e, x); }
  }

  lemma UnheldGet(c: Cache, dev: nat, blk: nat, x: nat)
    requires Inv(c) && Step(c, Get(dev, blk)).Some? && x < |c.disk|
    requires forall a :: Has(c, a) ==> !Holds(c.bufs[a], x)
    ensures var c' := Step(c, Get(dev, blk)).value; c'.disk == c.disk && View(c', x) == c.disk[x]
  {
    ScanGives(c, dev, blk);
    ViewDisk(Step(c, Get(dev, blk)).value, x);
  }

  lemma UnheldOther(c: Cache, e: Event, x: nat)
    requires Inv(c) && Step(c, e).Some? && Inv(Step(c, e).value) && x < |c.disk| && !e.Get?
    requires forall a :: Has(c, a) ==> !Holds(c.bufs[a], x)
    ensures var c' := Step(c, e).value; View(c', x) == c'.disk[x] == c.disk[x] && !(e.Modify? && c.bufs[e.b].blk == x)
  {
    var c' := Step(c, e).value;
    assert BufOk(c, c.bufs[e.b]) && !Holds(c.bufs[e.b], x);
    assert forall a :: Has(c, a) && a != e.b ==> !Holds(c'.bufs[a], x);
    if Holds(c'.bufs[e.b], x) {
      ViewIs(c', x, e.b);
    } else {
      ViewDisk(c', x);
    }
  }

  // ---- Runs ----

  predicate Leads(c: Cache, e: Event, c': Cache) {
    InRange(c.bufs, c.order) && Step(c, e) == Some(c')
  }

  ghost predicate IsRun(states: seq<Cache>, events: seq<Event>) {
    && |states| == |events| + 1
    && forall k :: 0 <= k < |events| ==>
         Leads(states[k], events[k], states[k + 1])
  }

  ghost predicate Initial(c: Cache) {
    && |c.order| == |c.bufs| == |c.stamp| && Nodes(c.order, |c.bufs|)
    && (forall b :: Has(c, b) ==>
        b in c.order && c.stamp[b] < c.clock && c.bufs[b] == Buf(0, 0, false, false, 0, false, 0, 0))
    && Falling(c.order, c.stamp)
  }

  /** What each event of the run stores into block `x`, if anything. */
  function Stores(states: seq<Cache>, events: seq<Event>, x: nat): (r: seq<Option<int>>)
    requires |states| == |events| + 1
    ensures |r| == |events|
    ensures forall k :: 0 <= k < |events| ==> r[k] == StoreOf(states[k], events[k], x)
  {
    seq(|events|, k requires 0 <= k < |events| => StoreOf(states[k], events[k], x))
  }

  function StoreOf(c: Cache, e: Event, x: nat): Option<int> {
    if e.Modify? && Has(c, e.b) && c.bufs[e.b].blk == x then Some(e.d) else None
  }

  /** The last of the first `k` stores, or the initial value. */
  function LastOf(init: int, stores: seq<Option<int>>, k: nat): int
    requires k <= |stores|
  {
    if k == 0 then init else if stores[k - 1].Some? then stores[k - 1].value else LastOf(init, stores, k - 1)
  }

  lemma InitialInv(c: Cache)
    requires Initial(c)
    ensures Inv(c)
  {
  }

  lemma InitialView(c: Cache, x: nat)
    requires Initial(c) && x < |c.disk|
    ensures View(c, x) == c.disk[x]
  {
    ViewDisk(c, x);
  }

  lemma LeadsInv(c: Cache, e: Event, c': Cache)
    requires Inv(c) && Leads(c, e, c') && Orderly(c, e)
    ensures Inv(c') && |c'.disk| == |c.disk|
  {
    StepInv(c, e);
  }

  lemma LeadsView(c: Cache, e: Event, c': Cache, x: nat)
    requires Inv(c) && Leads(c, e, c') && x < |c.disk| && Orderly(c, e)
    ensures |c'.disk| == |c.disk| && (e.Modify? ==> Has(c, e.b))
    ensures View(c', x) == if e.Modify? && c.bufs[e.b].blk == x then e.d else View(c, x)
  {
    StepView(c, e, x);
  }

  /** Changed data is logged or written before it is released. */
  predicate OrderlyRun(states: seq<Cache>, events: seq<Event>)
    requires |states| == |events| + 1
  {
    forall k :: 0 <= k < |events| ==> Orderly(states[k], events[k])
  }

  /** In every such run the list holds each buffer once, newest release first, no block is in two buffers, and what
      is neither dirty nor in someone's hands is on disk. */
  lemma {:induction false} RunInv(states: seq<Cache>, events: seq<Event>, k: nat)
    requires IsRun(states, events) && Initial(states[0]) && OrderlyRun(states, events) && k <= |events|
    ensures Inv(states[k]) && |states[k].disk| == |states[0].disk|
  {
    if k == 0 {
      InitialInv(states[0]);
    } else {
      RunInv(states, events, k - 1);
      LeadsInv(states[k - 1], events[k - 1], states[k]);
    }
  }

  lemma RunViewStep(states: seq<Cache>, events: seq<Event>, x: nat, k: nat)
    requires IsRun(states, events) && Initial(states[0]) && OrderlyRun(states, events)
    requires k < |events| && x < |states[0].disk|
    ensures |states[k].disk| == |states[k + 1].disk| == |states[0].disk|
    ensures var w := Stores(states, events, x)[k];
      View(states[k + 1], x) == if w.Some? then w.value else View(states[k], x)
  {
    RunInv(states, events, k);
    LeadsView(states[k], events[k], states[k + 1], x);
  }

  /** In every such run the cache shows, for every block, the last value that was stored into it. */
  lemma {:induction false} RunView(states: seq<Cache>, events: seq<Event>, x: nat, k: nat)
    requires IsRun(states, events) && Initial(states[0]) && OrderlyRun(states, events)
    requires k <= |events| && x < |states[0].disk|
    ensures |states[k].disk| == |states[0].disk|
    ensures View(states[k], x) == LastOf(states[0].disk[x], Stores(states, events, x), k)
  {
    if k == 0 {
      InitialView(states[0], x);
    } else {
      RunView(states, events, x, k - 1);
      RunViewStep(states, events, x, k - 1);
    }
  }

  // ---- A store that is lost ----

  function OneBuffer(b: Buf, stamp: int): Cache { Cache([b], [0], [0, 0], [stamp], stamp + 1) }

  /** With one buffer: read block 0, store 7, release without logging or writing, and read block 1. */
  function LossyEvents(): seq<Event> { [Get(1, 0), Lock(0), Fetch(0), Modify(0, 7), Unlock(0), Deref(0), Get(1, 1)] }

  function LossyStates(): seq<Cache> {
    [OneBuffer(Buf(0, 0, false, false, 0, false, 0, 0), 0),
     OneBuffer(Buf(1, 0, false, false, 1, false, 0, 0), 0),
     OneBuffer(Buf(1, 0, false, false, 0, true, 0, 0), 0),
     OneBuffer(Buf(1, 0, true, false, 0, true, 0, 0), 0),
     OneBuffer(Buf(1, 0, true, false, 0, true, 0, 7), 0),
     OneBuffer(Buf(1, 0, true, false, 0, false, 1, 7), 0),
     OneBuffer(Buf(1, 0, true, false, 0, false, 0, 7), 1),
     OneBuffer(Buf(1, 1, false, false, 1, false, 0, 7), 1)]
  }

  /** A step that changes the one buffer only */
  lemma OnlyBuffer(b: Buf, b': Buf, stamp: int)
    ensures OneBuffer(b, stamp).(bufs := OneBuffer(b, stamp).bufs[0 := b']) == OneBuffer(b', stamp)
  {
  }

  lemma LossyLeads(k: nat)
    requires k < 7
    ensures Leads(LossyStates()[k], LossyEvents()[k], LossyStates()[k + 1])
  {
    var c := LossyStates()[k];
    OnlyBuffer(c.bufs[0], LossyStates()[k + 1].bufs[0], c.stamp[0]);
    if k == 0 || k == 6 { assert FindIdle(c.bufs, [0], 1) == 0; }
    if k == 5 { assert ToFront([0], 0) == [0] && c.stamp[0 := 1] == [1]; }
  }

  lemma LossyRun()
    ensures IsRun(LossyStates(), LossyEvents()) && Initial(LossyStates()[0])
  {
    forall k | 0 <= k < 7 ensures Leads(LossyStates()[k], LossyEvents()[k], LossyStates()[k + 1]) { LossyLeads(k); }
  }

  /** The last store was 7, and the cache shows 0. */
  lemma UnloggedStoreLost()
    ensures LastOf(0, Stores(LossyStates(), LossyEvents(), 0), 7) == 7 && View(LossyStates()[7], 0) == 0
    ensures !Orderly(LossyStates()[4], LossyEvents()[4])
  {
    var stores := Stores(LossyStates(), LossyEvents(), 0);
    assert stores[6] == stores[5] == stores[4] == None && stores[3] == Some(7);
    assert LastOf(0, stores, 4) == 7 && LastOf(0, stores, 5) == 7 && LastOf(0, stores, 6) == 7;
  }
}
