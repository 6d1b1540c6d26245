/** The xv6 write path: balloc, bmap, writei and filewrite, and how many blocks one transaction logs. */
module WritePath {
  import opened Helpers

  const BSIZE: nat := 512
  const NDIRECT: nat := 12
  const NINDIRECT: nat := 128
  const MAXFILE: nat := 140
  const BPB: nat := 4096
  const MAXOPBLOCKS: nat := 10
  const UINT: nat := 0x1_0000_0000

  /** Where the bitmap and the inode lie on disk. */
  datatype Layout = Layout(bmapstart: nat, iblock: nat)

  /** The free bitmap; a regular file's inode and the entries of its indirect block (zeros when there is none); and
      the block numbers in the current transaction's log. */
  datatype State = State(bits: seq<bool>, addrs: seq<nat>, ind: seq<nat>, size: nat, log: set<nat>)

  /** Block 0, the boot block, is in use, so 0 can stand for no block. */
  predicate Formed(s: State) {
    && |s.bits| > 0 && s.bits[0] && |s.addrs| == NDIRECT + 1 && |s.ind| == NINDIRECT
    && (s.addrs[NDIRECT] == 0 ==> forall j :: 0 <= j < NINDIRECT ==> s.ind[j] == 0)
  }

  function BitmapBlock(l: Layout, b: nat): nat { b / BPB + l.bmapstart }

  // ---- balloc ----

  function FirstFree(bits: seq<bool>, k: nat): (r: nat)
    requires k <= |bits|
    ensures k <= r <= |bits|
    ensures r < |bits| ==> !bits[r]
    ensures forall j :: k <= j < r ==> bits[j]
    decreases |bits| - k
  {
    if k == |bits| || !bits[k] then k else FirstFree(bits, k + 1)
  }

  /** balloc: the first free block is marked and zeroed, which logs its bitmap block and the block itself.
      None is the panic. */
  function Balloc(l: Layout, s: State): (r: Option<(State, nat)>)
    ensures r.Some? ==> r.value.0 == s.(bits := r.value.0.bits, log := r.value.0.log)
  {
    var b := FirstFree(s.bits, 0);
    if b == |s.bits| then None
    else Some((s.(bits := s.bits[b := true], log := s.log + {BitmapBlock(l, b), b}), b))
  }

  // ---- bmap ----

  /** The block at index `bn` of the file, 0 when there is none. */
  function BlockAt(s: State, bn: nat): nat
    requires Formed(s) && bn < MAXFILE
  {
    if bn < NDIRECT then s.addrs[bn] else s.ind[bn - NDIRECT]
  }

  /** bmap for a direct block */
  function BmapDirect(l: Layout, s: State, bn: nat): Option<(State, nat)>
    requires Formed(s) && bn < NDIRECT
  {
    if s.addrs[bn] != 0 then Some((s, s.addrs[bn])) else
    match Balloc(l, s)
    case None => None
    case Some((s1, b)) => Some((s1.(addrs := s1.addrs[bn := b]), b))
  }

  /** bmap's first part for an indirect block: the indirect block, allocated if missing */
  function Indirect(l: Layout, s: State): Option<State>
    requires Formed(s)
  {
    if s.addrs[NDIRECT] != 0 then Some(s) else
    match Balloc(l, s)
    case None => None
    case Some((s1, b)) => Some(s1.(addrs := s1.addrs[NDIRECT := b]))
  }

  function BmapIndirect(l: Layout, s: State, j: nat): Option<(State, nat)>
    requires Formed(s) && j < NINDIRECT
  {
    match Indirect(l, s)
    case None => None
    case Some(s1) =>
      if s1.ind[j] != 0 then Some((s1, s1.ind[j])) else
      match Balloc(l, s1)
      case None => None
      case Some((s2, b)) => Some((s2.(ind := s2.ind[j := b], log := s2.log + {s2.addrs[NDIRECT]}), b))
  }

  function Bmap(l: Layout, s: State, bn: nat): Option<(State, nat)>
    requires Formed(s) && bn < MAXFILE
  {
    if bn < NDIRECT then BmapDirect(l, s, bn) else BmapIndirect(l, s, bn - NDIRECT)
  }

  /** No block below `n` is missing. */
  predicate Solid(s: State, n: nat)
    requires Formed(s) && n <= MAXFILE
  {
    forall k :: 0 <= k < n ==> BlockAt(s, k) != 0
  }

  // ---- writei ----

  function Min(a: nat, b: nat): nat { if a < b then a else b }

  /** The loop of writei: each turn finds or makes a block, fills part of it and logs it. */
  function WriteLoop(l: Layout, s: State, off: nat, n: nat): Option<State>
    requires Formed(s) && off + n <= MAXFILE * BSIZE
    decreases n
  {
    if n == 0 then Some(s) else
    match Bmap(l, s, off / BSIZE)
    case None => None
    case Some((s1, b)) =>
      var m := Min(n, BSIZE - off % BSIZE);
      BmapFormed(l, s, off / BSIZE);
      WriteLoop(l, s1.(log := s1.log + {b}), off + m, n - m)
  }

  lemma BmapFormed(l: Layout, s: State, bn: nat)
    requires Formed(s) && bn < MAXFILE && Bmap(l, s, bn).Some?
    ensures Formed(Bmap(l, s, bn).value.0)
  {
  }

  /** What writei checks before it writes, in 32-bit arithmetic. */
  predicate Accepts(s: State, off: nat, n: nat) {
    off <= s.size && (off + n) % UINT >= off && (off + n) % UINT <= MAXFILE * BSIZE
  }

  /** writei on a regular file: the new state and the result, or None for a panic. */
  function Writei(l: Layout, s: State, off: nat, n: nat): Option<(State, int)>
    requires Formed(s) && off < UINT && n < UINT
  {
    if !Accepts(s, off, n) then Some((s, -1)) else
    match WriteLoop(l, s, off, n)
    case None => None
    case Some(s1) =>
      if n > 0 && off + n > s.size then Some((s1.(size := off + n, log := s1.log + {l.iblock}), n)) else Some((s1, n))
  }

  // ---- The blocks a call adds to the log ----

  /** What bmap does to the file: block `bn` is there afterwards and nothing else moved. */
  predicate Mapped(s: State, s': State, bn: nat, b: nat)
    requires Formed(s) && bn < MAXFILE
  {
    && Formed(s') && s'.size == s.size && b != 0 && BlockAt(s', bn) == b
    && (forall k :: 0 <= k < MAXFILE && k != bn ==> BlockAt(s', k) == BlockAt(s, k))
    && (bn < NDIRECT || s.addrs[NDIRECT] != 0 ==> s'.addrs[NDIRECT] == s.addrs[NDIRECT])
    && (bn >= NDIRECT ==> s'.addrs[NDIRECT] != 0)
  }

  function One(b: bool): nat { if b then 1 else 0 }

  /** bmap logs the new block, one bitmap block for it and one for a new indirect block, and the indirect block. */
  lemma BmapLogs(l: Layout, s: State, bn: nat) returns (bitmaps: set<nat>)
    requires Formed(s) && bn < MAXFILE && Bmap(l, s, bn).Some?
    ensures var (s', b) := Bmap(l, s, bn).value;
      && Mapped(s, s', bn, b) && s'.log <= s.log + {b} + bitmaps + (if bn >= NDIRECT then {s'.addrs[NDIRECT]} else {})
    ensures |bitmaps| <= One(BlockAt(s, bn) == 0) + One(bn >= NDIRECT && s.addrs[NDIRECT] == 0)
  {
    bitmaps := {};
    if BlockAt(s, bn) == 0 {
      if bn < NDIRECT {
        bitmaps := {BitmapBlock(l, Balloc(l, s).value.1)};
      } else {
        var s1 := Indirect(l, s).value;
        bitmaps := {BitmapBlock(l, Balloc(l, s1).value.1)};
        if s.addrs[NDIRECT] == 0 { bitmaps := bitmaps + {BitmapBlock(l, Balloc(l, s).value.1)}; }
      }
    }
  }

  /** How many of the blocks `lo`, ..., `hi - 1` are missing. */
  function Missing(s: State, lo: nat, hi: nat): nat
    requires Formed(s) && hi <= MAXFILE
    decreases hi - lo
  {
    if lo >= hi then 0 else One(BlockAt(s, lo) == 0) + Missing(s, lo + 1, hi)
  }

  lemma {:induction false} MissingSame(s: State, s': State, lo: nat, hi: nat)
    requires Formed(s) && Formed(s') && hi <= MAXFILE
    requires forall k :: lo <= k < hi ==> BlockAt(s', k) == BlockAt(s, k)
    ensures Missing(s', lo, hi) == Missing(s, lo, hi)
    decreases hi - lo
  {
    if lo < hi { MissingSame(s, s', lo + 1, hi); }
  }

  /** One past the last block that a write of `n` bytes at `off` touches. */
  function End(off: nat, n: nat): nat { (off + n + BSIZE - 1) / BSIZE }

  /** The loop leaves the blocks it touched in place, and the others alone. */
  ghost predicate Written(s: State, s': State, lo: nat, hi: nat)
    requires Formed(s)
  {
    && Formed(s') && s'.size == s.size
    && (forall k :: 0 <= k < MAXFILE && !(lo <= k < hi) ==> BlockAt(s', k) == BlockAt(s, k))
    && (forall k :: lo <= k < hi && k < MAXFILE ==> BlockAt(s', k) != 0)
    && (hi <= NDIRECT || s.addrs[NDIRECT] != 0 ==> s'.addrs[NDIRECT] == s.addrs[NDIRECT])
  }

  /** One turn of the loop. */
  function Turn(l: Layout, s: State, bn: nat): State
    requires Formed(s) && bn < MAXFILE && Bmap(l, s, bn).Some?
  {
    var (s1, b) := Bmap(l, s, bn).value;
    s1.(log := s1.log + {b})
  }

  lemma LoopTurn(l: Layout, s: State, off: nat, n: nat)
    requires Formed(s) && off + n <= MAXFILE * BSIZE && n > 0 && Bmap(l, s, off / BSIZE).Some?
    ensures Formed(Turn(l, s, off / BSIZE))
    ensures var m := Min(n, BSIZE - off % BSIZE);
      WriteLoop(l, s, off, n) == WriteLoop(l, Turn(l, s, off / BSIZE), off + m, n - m)
  {
    BmapFormed(l, s, off / BSIZE);
  }

  lemma TurnLogs(l: Layout, s: State, bn: nat, hi: nat) returns (data: set<nat>, bitmaps: set<nat>)
    requires Formed(s) && bn < hi <= MAXFILE && Bmap(l, s, bn).Some?
    ensures var s' := Turn(l, s, bn);
      && Written(s, s', bn, bn + 1) && Missing(s, bn, hi) == One(BlockAt(s, bn) == 0) + Missing(s', bn + 1, hi)
      && s'.log <= s.log + data + bitmaps + (if bn >= NDIRECT then {s'.addrs[NDIRECT]} else {})
      && (bn >= NDIRECT ==> s'.addrs[NDIRECT] != 0)
    ensures |data| == 1 && |bitmaps| <= One(BlockAt(s, bn) == 0) + One(bn >= NDIRECT && s.addrs[NDIRECT] == 0)
  {
    bitmaps := BmapLogs(l, s, bn);
    var s' := Turn(l, s, bn);
    data := {Bmap(l, s, bn).value.1};
    MissingSame(s, s', bn + 1, hi);
  }

  lemma WrittenThen(s: State, s1: State, s': State, lo: nat, hi: nat)
    requires Formed(s) && Written(s, s1, lo, lo + 1) && Written(s1, s', lo + 1, hi) && lo < hi
    ensures Written(s, s', lo, hi)
  {
  }

  function IndirectLogged(s: State, bn: nat): set<nat>
    requires Formed(s)
  {
    if bn >= NDIRECT then {s.addrs[NDIRECT]} else {}
  }

  /** A turn on block `bn`, with what it may have logged. */
  datatype TurnLog = TurnLog(after: State, data: set<nat>, bitmaps: set<nat>)

  ghost predicate IsTurn(s: State, t: TurnLog, bn: nat) {
    && Formed(s) && bn < MAXFILE && Written(s, t.after, bn, bn + 1)
    && t.after.log <= s.log + t.data + t.bitmaps + IndirectLogged(t.after, bn)
    && |t.data| == 1
    && |t.bitmaps| + One(t.after.addrs[NDIRECT] == 0) <= One(BlockAt(s, bn) == 0) + One(s.addrs[NDIRECT] == 0)
    && (bn >= NDIRECT ==> t.after.addrs[NDIRECT] != 0)
  }

  /** Turns on the blocks from `lo` on, leading from `s` to `s'`. */
  ghost predicate IsChain(s: State, ts: seq<TurnLog>, lo: nat, s': State)
    decreases |ts|
  {
    if ts == [] then s' == s else IsTurn(s, ts[0], lo) && IsChain(ts[0].after, ts[1..], lo + 1, s')
  }

  lemma LoopEnd(l: Layout, s: State, off: nat)
    requires Formed(s) && off <= MAXFILE * BSIZE
    ensures WriteLoop(l, s, off, 0) == Some(s)
  {
  }

  /** The loop that is at state `s` with `n` bytes to go will end as `all` says; one fact in the proof that carries it
      along. */
  ghost predicate Ends(l: Layout, s: State, off: nat, n: nat, all: Option<State>) {
    forall x: nat | x == n && Formed(s) && off + x <= MAXFILE * BSIZE :: WriteLoop(l, s, off, x) == all
  }

  lemma EndsTurn(l: Layout, s: State, off: nat, n: nat, all: Option<State>)
    requires Formed(s) && off + n <= MAXFILE * BSIZE && n > 0 && Ends(l, s, off, n, all)
    ensures Bmap(l, s, off / BSIZE).None? ==> all.None?
    ensures var m := Min(n, BSIZE - off % BSIZE);
      Bmap(l, s, off / BSIZE).Some? ==> Ends(l, Turn(l, s, off / BSIZE), off + m, n - m, all)
  {
    assert WriteLoop(l, s, off, n) == all;
    if Bmap(l, s, off / BSIZE).Some? { LoopTurn(l, s, off, n); }
  }

  lemma EndsNow(l: Layout, s: State, off: nat, all: Option<State>)
    requires Formed(s) && off <= MAXFILE * BSIZE && Ends(l, s, off, 0, all)
    ensures all == Some(s)
  {
    LoopEnd(l, s, off);
  }

  /** The first turn of the loop, and the rest. */
  lemma FirstTurn(l: Layout, s: State, off: nat, n: nat, s': State) returns (t: TurnLog)
    requires Formed(s) && n > 0 && off + n <= MAXFILE * BSIZE && Ends(l, s, off, n, Some(s'))
    ensures IsTurn(s, t, off / BSIZE) && Formed(t.after)
    ensures var m := Min(n, BSIZE - off % BSIZE); Ends(l, t.after, off + m, n - m, Some(s'))
  {
    var bn := off / BSIZE;
    EndsTurn(l, s, off, n, Some(s'));
    var data, bitmaps := TurnLogs(l, s, bn, bn + 1);
    BmapFormed(l, s, bn);
    t := TurnLog(Turn(l, s, bn), data, bitmaps);
  }

  /** Where the next turn starts. */
  lemma NextTurn(off: nat, n: nat)
    requires n > 0
    ensures var m := Min(n, BSIZE - off % BSIZE);
      if n > m then (off + m) / BSIZE == off / BSIZE + 1 && (off + m) % BSIZE == 0 && End(off + m, n - m) == End(off, n)
      else End(off, n) == off / BSIZE + 1
  {
  }

  /** The loop is a chain of turns on the blocks that the write touches. */
  lemma LoopChain(l: Layout, s: State, off: nat, n: nat, s': State) returns (ts: seq<TurnLog>)
    requires Formed(s) && n > 0 && off + n <= MAXFILE * BSIZE && WriteLoop(l, s, off, n) == Some(s')
    ensures |ts| == End(off, n) - off / BSIZE && IsChain(s, ts, off / BSIZE, s')
  {
    ts := ChainFrom(l, s, off, n, s', off / BSIZE, End(off, n));
  }

  /** Blocks `lo`, ..., `hi - 1` are those that the rest of the write touches. */
  lemma {:induction false} ChainFrom(l: Layout, s: State, off: nat, n: nat, s': State, lo: nat, hi: nat)
      returns (ts: seq<TurnLog>)
    requires Formed(s) && n > 0 && off + n <= MAXFILE * BSIZE && Ends(l, s, off, n, Some(s'))
    requires lo == off / BSIZE && hi == End(off, n)
    ensures |ts| == hi - lo && IsChain(s, ts, lo, s')
    decreases n
  {
    var m := Min(n, BSIZE - off % BSIZE);
    var t := FirstTurn(l, s, off, n, s');
    NextTurn(off, n);
    var rest := [];
    if n > m {
      rest := ChainFrom(l, t.after, off + m, n - m, s', lo + 1, hi);
    } else {
      EndsNow(l, t.after, off + m, Some(s'));
    }
    ts := [t] + rest;
    ChainFirst(s, t, rest, lo, s');
  }

  lemma ChainFirst(s: State, t: TurnLog, rest: seq<TurnLog>, lo: nat, s': State)
    requires IsTurn(s, t, lo) && IsChain(t.after, rest, lo + 1, s')
    ensures IsChain(s, [t] + rest, lo, s')
  {
    assert ([t] + rest)[1..] == rest;
  }

  /** A chain logs a data block a turn, a bitmap block for every missing block, perhaps one more for the indirect
      block, and the indirect block; it leaves its blocks in place and the others alone. */
  lemma {:induction false} ChainLogs(s: State, ts: seq<TurnLog>, lo: nat, s': State)
      returns (data: set<nat>, bitmaps: set<nat>)
    requires ts != [] && Formed(s) && IsChain(s, ts, lo, s')
    ensures lo + |ts| <= MAXFILE && Written(s, s', lo, lo + |ts|)
    ensures s'.log <= s.log + data + bitmaps + {s'.addrs[NDIRECT]} && |data| <= |ts|
    ensures |bitmaps| <= Missing(s, lo, lo + |ts|) + One(s.addrs[NDIRECT] == 0)
    decreases |ts|
  {
    var t := ts[0];
    data, bitmaps := t.data, t.bitmaps;
    var hi := lo + |ts|;
    if |ts| > 1 {
      var data', bitmaps' := ChainLogs(t.after, ts[1..], lo + 1, s');
      MissingSame(s, t.after, lo + 1, hi);
      WrittenThen(s, t.after, s', lo, hi);
      LogJoin(s.log, t.after.log, s'.log, data, bitmaps, IndirectLogged(t.after, lo), data', bitmaps',
        s'.addrs[NDIRECT]);
      data, bitmaps := data + data', bitmaps + bitmaps';
    }
  }

  lemma LogJoin(log0: set<nat>, log1: set<nat>, log2: set<nat>, d1: set<nat>, b1: set<nat>, i1: set<nat>,
                d2: set<nat>, b2: set<nat>, x: nat)
    requires log1 <= log0 + d1 + b1 + i1 && log2 <= log1 + d2 + b2 + {x} && i1 <= {x}
    ensures log2 <= log0 + (d1 + d2) + (b1 + b2) + {x}
  {
  }

  // ---- The bound ----

  const MAXCHUNK: nat := 1536 // ((MAXOPBLOCKS - 1 - 1 - 2) / 2) * 512

  /** No block below the file's size is missing. */
  predicate NoHoles(s: State) {
    Formed(s) && s.size <= MAXFILE * BSIZE && Solid(s, End(s.size, 0))
  }

  lemma {:induction false} MissingAtMost(s: State, lo: nat, hi: nat)
    requires Formed(s) && lo <= hi <= MAXFILE
    ensures Missing(s, lo, hi) <= hi - lo
    ensures lo < hi && BlockAt(s, lo) != 0 ==> Missing(s, lo, hi) <= hi - lo - 1
    decreases hi - lo
  {
    if lo < hi { MissingAtMost(s, lo + 1, hi); }
  }

  /** Touched plus missing blocks of a chunk: an unaligned chunk starts in a block that is there. */
  lemma ChunkBlocks(s: State, off: nat, n: nat)
    requires NoHoles(s) && off <= s.size && 0 < n <= MAXCHUNK && off + n <= MAXFILE * BSIZE
    ensures var lo, hi := off / BSIZE, End(off, n); lo < hi <= MAXFILE && hi - lo + Missing(s, lo, hi) <= 7
  {
    var lo, hi := off / BSIZE, End(off, n);
    MissingAtMost(s, lo, hi);
    if off % BSIZE != 0 { assert lo < End(s.size, 0) && BlockAt(s, lo) != 0; }
  }

  lemma SetBound(log: set<nat>, old_: set<nat>, data: set<nat>, bitmaps: set<nat>, x: nat)
    requires log <= old_ + data + bitmaps + {x}
    ensures |log| <= |old_| + |data| + |bitmaps| + 1
  {
    SubsetSize(log, old_ + data + bitmaps + {x});
  }

  lemma {:induction false} SubsetSize(a: set<nat>, b: set<nat>)
    requires a <= b
    ensures |a| <= |b|
  {
    assert b == a + (b - a);
  }

  lemma WrittenSolid(s: State, s': State, off: nat, n: nat)
    requires NoHoles(s) && off <= s.size && n > 0 && off + n <= MAXFILE * BSIZE && End(off, n) <= MAXFILE
    requires Written(s, s', off / BSIZE, End(off, n))
    ensures s'.size == s.size && Solid(s', End(s.size, 0)) && Solid(s', End(off + n, 0))
  {
    forall k | 0 <= k < MAXFILE && (k < End(s.size, 0) || k < End(off + n, 0)) ensures BlockAt(s', k) != 0 {
      if k < off / BSIZE || k >= End(off, n) { assert k < End(s.size, 0) && BlockAt(s', k) == BlockAt(s, k); }
    }
  }

  /** The loop of a chunk: at most nine blocks, and no holes. */
  lemma LoopFits(l: Layout, s: State, off: nat, n: nat, s1: State)
    requires NoHoles(s) && off <= s.size && 0 < n <= MAXCHUNK && off + n <= MAXFILE * BSIZE
    requires WriteLoop(l, s, off, n) == Some(s1)
    ensures Formed(s1) && |s1.log| <= |s.log| + MAXOPBLOCKS - 1
    ensures s1.size == s.size && Solid(s1, End(s.size, 0)) && Solid(s1, End(off + n, 0))
  {
    var ts := LoopChain(l, s, off, n, s1);
    NextTurn(off, n);
    var data, bitmaps := ChainLogs(s, ts, off / BSIZE, s1);
    ChunkBlocks(s, off, n);
    SetBound(s1.log, s.log, data, bitmaps, s1.addrs[NDIRECT]);
    WrittenSolid(s, s1, off, n);
  }

  /** A chunk of filewrite logs at most MAXOPBLOCKS blocks, whatever the number of bitmap blocks, leaves the file
      without holes, and writes all or nothing. */
  lemma ChunkFits(l: Layout, s: State, off: nat, n: nat)
    requires NoHoles(s) && off < UINT && n <= MAXCHUNK && Writei(l, s, off, n).Some?
    ensures var (s', r) := Writei(l, s, off, n).value;
      && NoHoles(s') && |s'.log| <= |s.log| + MAXOPBLOCKS
      && (r == if off <= s.size && off + n <= MAXFILE * BSIZE then n else -1)
      && (if r < 0 then s' == s else s'.size == if n > 0 && off + n > s.size then off + n else s.size)
  {
    if Accepts(s, off, n) && n > 0 {
      var s1 := WriteLoop(l, s, off, n).value;
      LoopFits(l, s, off, n, s1);
      assert |s1.log + {l.iblock}| <= |s1.log| + 1;
      var s' := Writei(l, s, off, n).value.0;
      assert forall k :: 0 <= k < MAXFILE ==> BlockAt(s', k) == BlockAt(s1, k);
    }
  }

  // ---- The bound is met ----

  /** A disk with five bitmap blocks on which the last block of each of the first four groups is free. */
  function TightBits(): seq<bool> {
    seq(5 * BPB, i => i != 4095 && i != 8191 && i != 12287 && i != 16383)
  }

  /** A file of eleven blocks and a byte: its twelfth block is there, its indirect block is not. */
  function TightState(bits: seq<bool>, log: set<nat>): State {
    State(bits, seq(13, i => if i < 12 then 100 + i else 0), seq(NINDIRECT, _ => 0), 11 * BSIZE + 1, log)
  }

  lemma FreeAt(bits: seq<bool>, b: nat)
    requires b < |bits| && !bits[b] && forall i :: 0 <= i < b ==> bits[i]
    ensures FirstFree(bits, 0) == b
  {
  }

  /** The four allocations take one block from each group. */
  lemma TightAllocs() returns (b1: seq<bool>, b2: seq<bool>, b3: seq<bool>)
    ensures var b0 := TightBits();
      && b1 == b0[4095 := true] && b2 == b1[8191 := true] && b3 == b2[12287 := true]
      && FirstFree(b0, 0) == 4095 && FirstFree(b1, 0) == 8191 && FirstFree(b2, 0) == 12287 && FirstFree(b3, 0) == 16383
  {
    var b0 := TightBits();
    b1 := b0[4095 := true];
    b2 := b1[8191 := true];
    b3 := b2[12287 := true];
    FreeAt(b0, 4095);
    FreeAt(b1, 8191);
    FreeAt(b2, 12287);
    FreeAt(b3, 16383);
  }

  /** A turn on a new block of the indirect part. */
  lemma IndirectTurn(l: Layout, s: State, j: nat, b: nat)
    requires Formed(s) && j < NINDIRECT && s.addrs[NDIRECT] != 0 && s.ind[j] == 0 && b < |s.bits|
    requires FirstFree(s.bits, 0) == b
    ensures Bmap(l, s, NDIRECT + j).Some?
    ensures Turn(l, s, NDIRECT + j) ==
      s.(bits := s.bits[b := true], ind := s.ind[j := b], log := s.log + {BitmapBlock(l, b), b, s.addrs[NDIRECT]})
  {
    assert s.log + {BitmapBlock(l, b), b} + {s.addrs[NDIRECT]} + {b} ==
      s.log + {BitmapBlock(l, b), b, s.addrs[NDIRECT]};
  }

  /** The same when the indirect block is new too. */
  lemma FirstIndirectTurn(l: Layout, s: State, j: nat, a: nat, b: nat)
    requires Formed(s) && j < NINDIRECT && s.addrs[NDIRECT] == 0 && 0 < a < |s.bits| && FirstFree(s.bits, 0) == a
    requires b < |s.bits| && FirstFree(s.bits[a := true], 0) == b
    ensures Bmap(l, s, NDIRECT + j).Some?
    ensures Turn(l, s, NDIRECT + j) ==
      s.(bits := s.bits[a := true][b := true], addrs := s.addrs[NDIRECT := a], ind := s.ind[j := b],
         log := s.log + {BitmapBlock(l, a), a, BitmapBlock(l, b), b})
  {
    var log := s.log + {BitmapBlock(l, a), a} + {BitmapBlock(l, b), b};
    assert log + {a} + {b} == s.log + {BitmapBlock(l, a), a, BitmapBlock(l, b), b};
  }

  /** A file with block 111 as its twelfth and no indirect block, on that disk. */
  predicate TightFile(s: State) {
    Formed(s) && s.bits == TightBits() && s.addrs[11] == 111 && s.addrs[NDIRECT] == 0 && s.log == {}
  }

  lemma TightStart() returns (s: State)
    ensures TightFile(s) && NoHoles(s) && s.size == 11 * BSIZE + 1
  {
    s := TightState(TightBits(), {});
  }

  /** The states of the four turns. */
  lemma TightTurns(l: Layout, s: State) returns (t0: State, t1: State, t2: State, t3: State)
    requires TightFile(s)
    ensures Formed(t0) && Formed(t1) && Formed(t2) && Formed(t3)
    ensures Bmap(l, s, 11).Some? && Turn(l, s, 11) == t0 && Bmap(l, t0, 12).Some? && Turn(l, t0, 12) == t1
    ensures Bmap(l, t1, 13).Some? && Turn(l, t1, 13) == t2 && Bmap(l, t2, 14).Some? && Turn(l, t2, 14) == t3
    ensures t3.log == {111} + {BitmapBlock(l, 4095), 4095, BitmapBlock(l, 8191), 8191}
                      + {BitmapBlock(l, 12287), 12287, 4095} + {BitmapBlock(l, 16383), 16383, 4095}
  {
    var b1, b2, b3 := TightAllocs();
    t0 := s.(log := {111});
    FirstIndirectTurn(l, t0, 0, 4095, 8191);
    t1 := Turn(l, t0, 12);
    IndirectTurn(l, t1, 1, 12287);
    t2 := Turn(l, t1, 13);
    IndirectTurn(l, t2, 2, 16383);
    t3 := Turn(l, t2, 14);
  }

  /** A chunk of 1536 bytes from the second byte of block 11 on takes four turns. */
  lemma FourTurns(l: Layout, s: State, t0: State, t1: State, t2: State, t3: State)
    requires Formed(s) && Formed(t0) && Formed(t1) && Formed(t2) && Formed(t3) && s.size == 11 * BSIZE + 1
    requires Bmap(l, s, 11).Some? && Turn(l, s, 11) == t0 && Bmap(l, t0, 12).Some? && Turn(l, t0, 12) == t1
    requires Bmap(l, t1, 13).Some? && Turn(l, t1, 13) == t2 && Bmap(l, t2, 14).Some? && Turn(l, t2, 14) == t3
    ensures WriteLoop(l, s, s.size, MAXCHUNK) == Some(t3)
  {
    var off := s.size;
    TwoTurns(l, s, off, 1536, t0, t1);
    TwoTurns(l, t1, off + 1023, 513, t2, t3);
    LoopEnd(l, t3, off + 1536);
  }

  lemma TwoTurns(l: Layout, s: State, off: nat, n: nat, t0: State, t1: State)
    requires Formed(s) && Formed(t0) && Formed(t1) && off + n <= MAXFILE * BSIZE && n > BSIZE - off % BSIZE
    requires Bmap(l, s, off / BSIZE).Some? && Turn(l, s, off / BSIZE) == t0
    requires Bmap(l, t0, off / BSIZE + 1).Some? && Turn(l, t0, off / BSIZE + 1) == t1
    ensures var m := BSIZE - off % BSIZE; var m' := Min(n - m, BSIZE);
      WriteLoop(l, s, off, n) == WriteLoop(l, t1, off + m + m', n - m - m')
  {
    var m := BSIZE - off % BSIZE;
    var all := WriteLoop(l, s, off, n);
    NextTurn(off, n);
    EndsTurn(l, s, off, n, all);
    EndsTurn(l, t0, off + m, n - m, all);
  }

  lemma GrowingWrite(l: Layout, s: State, n: nat, s1: State)
    requires Formed(s) && 0 < n <= MAXCHUNK && s.size + n <= MAXFILE * BSIZE && WriteLoop(l, s, s.size, n) == Some(s1)
    ensures Writei(l, s, s.size, n).Some? && Writei(l, s, s.size, n).value.0.log == s1.log + {l.iblock}
  {
  }

  /** Ten blocks: four of data, four of bitmap, the indirect block and the inode. */
  lemma Tight() returns (l: Layout, s: State)
    ensures NoHoles(s) && s.log == {} && Writei(l, s, s.size, MAXCHUNK).Some?
    ensures |Writei(l, s, s.size, MAXCHUNK).value.0.log| == MAXOPBLOCKS
  {
    l := Layout(58, 32);
    s := TightStart();
    var t0, t1, t2, t3 := TightTurns(l, s);
    FourTurns(l, s, t0, t1, t2, t3);
    GrowingWrite(l, s, MAXCHUNK, t3);
    TenBlocks(t3.log + {32});
  }

  lemma TenBlocks(log: set<nat>)
    requires log == {111} + {58, 4095, 59, 8191} + {60, 12287, 4095} + {61, 16383, 4095} + {32}
    ensures |log| == MAXOPBLOCKS
  {
    var five := {111, 58, 4095, 59, 8191};
    var other := {60, 12287, 61, 16383, 32};
    assert log == five + other && |five| == 5 && |other| == 5;
  }

  // ---- The code as it runs ----

  const PANIC: int := -2

  class FileT {
    const l: Layout
    var bits: seq<bool>
    var addrs: seq<nat>
    var ind: seq<nat>
    var size: nat
    var log: set<nat>
    var off: nat
    ghost var txns: seq<set<nat>> // the blocks logged by each finished operation

    ghost function Value(): State
      reads this
    {
      State(bits, addrs, ind, size, log)
    }

    /** balloc */
    method AllocBlock() returns (b: int)
      modifies this`bits, this`log
      ensures match Balloc(l, old(Value()))
        case None => b == PANIC && Value() == old(Value())
        case Some((s', b')) => b == b' && Value() == s'
    {
      ghost var free := FirstFree(bits, 0);
      var base := 0;
      while base < |bits|
        invariant 0 <= base <= free + BPB - 1 && base % BPB == 0 && (base <= free || free == |bits|)
      {
        var bi := 0;
        while bi < BPB && base + bi < |bits|
          invariant 0 <= bi <= BPB && base + bi <= free
        {
          if !bits[base + bi] {
            bits := bits[base + bi := true];
            log := log + {BitmapBlock(l, base + bi)};
            log := log + {base + bi};
            return base + bi;
          }
          bi := bi + 1;
        }
        base := base + BPB;
      }
      b := PANIC;
    }

    /** bmap */
    method MapBlock(bn: nat) returns (b: int)
      requires Formed(Value()) && bn < MAXFILE
      modifies this`bits, this`addrs, this`ind, this`log
      ensures match Bmap(l, old(Value()), bn)
        case None => b == PANIC
        case Some((s', b')) => b == b' && Value() == s'
    {
      if bn < NDIRECT {
        b := addrs[bn];
        if b == 0 {
          b := AllocBlock();
          if b == PANIC { return; }
          addrs := addrs[bn := b];
        }
        return;
      }
      var j := bn - NDIRECT;
      if addrs[NDIRECT] == 0 {
        b := AllocBlock();
        if b == PANIC { return; }
        addrs := addrs[NDIRECT := b];
      }
      b := ind[j];
      if b == 0 {
        b := AllocBlock();
        if b == PANIC { return; }
        ind := ind[j := b];
        log := log + {addrs[NDIRECT]};
      }
    }

    /** One turn of writei's loop. */
    method WriteBlock(o: nat) returns (b: int)
      requires Formed(Value()) && o / BSIZE < MAXFILE
      modifies this`bits, this`addrs, this`ind, this`log
      ensures if Bmap(l, old(Value()), o / BSIZE).None? then b == PANIC
              else b >= 0 && Formed(Value()) && Value() == Turn(l, old(Value()), o / BSIZE)
    {
      ghost var s := Value();
      b := MapBlock(o / BSIZE);
      if b == PANIC { return; }
      BmapFormed(l, s, o / BSIZE);
      log := log + {b};
    }

    /** writei's loop */
    method WriteBlocks(at: nat, n: nat) returns (ok: bool)
      requires Formed(Value()) && at + n <= MAXFILE * BSIZE
      modifies this`bits, this`addrs, this`ind, this`log
      ensures if ok then Some(Value()) == WriteLoop(l, old(Value()), at, n) else WriteLoop(l, old(Value()), at, n).None?
    {
      var tot, o := 0, at;
      ghost var all := WriteLoop(l, Value(), at, n);
      while tot < n
        invariant 0 <= tot <= n && o == at + tot && Formed(Value()) && Ends(l, Value(), o, n - tot, all)
      {
        ghost var s := Value();
        EndsTurn(l, s, o, n - tot, all);
        var b := WriteBlock(o);
        if b == PANIC { return false; }
        var m := Min(n - tot, BSIZE - o % BSIZE);
        tot, o := tot + m, o + m;
      }
      EndsNow(l, Value(), o, all);
      ok := true;
    }

    /** writei, for a regular file */
    method WriteInode(at: nat, n: nat) returns (r: int)
      requires Formed(Value()) && at < UINT && n < UINT
      modifies this`bits, this`addrs, this`ind, this`log, this`size
      ensures match Writei(l, old(Value()), at, n)
        case None => r == PANIC
        case Some((s', v)) => r == v && Value() == s'
    {
      if at > size || (at + n) % UINT < at { return -1; }
      if (at + n) % UINT > MAXFILE * BSIZE { return -1; }
      var ok := WriteBlocks(at, n);
      if !ok { return PANIC; }
      if n > 0 && at + n > size {
        size := at + n;
        log := log + {l.iblock};
      }
      r := n;
    }

    /** One transaction of filewrite */
    method WriteChunk(n: nat) returns (w: int)
      requires NoHoles(Value()) && off < UINT && n <= MAXCHUNK
      modifies this
      ensures w != PANIC ==> NoHoles(Value()) && txns == old(txns) + [log] && |log| <= MAXOPBLOCKS
      ensures w != PANIC ==> w == if old(off) <= old(size) && old(off) + n <= MAXFILE * BSIZE then n else -1
      ensures w != PANIC ==> off == old(off) + (if w < 0 then 0 else n)
      ensures w != PANIC ==> size == if w > 0 && off > old(size) then off else old(size)
    {
      log := {};
      ghost var s := Value();
      EmptyLog(old(Value()));
      w := WriteInode(off, n);
      if w == PANIC { return; }
      ChunkFits(l, s, off, n);
      if w > 0 { off := off + w; }
      txns := txns + [log];
    }

    /** filewrite on an inode: chunk by chunk, each in its own transaction */
    method FileWrite(n: int) returns (r: int)
      requires NoHoles(Value()) && off < UINT
      modifies this
      ensures r != PANIC ==> NoHoles(Value())
      ensures r != PANIC ==>
        r == if n == 0 || (n > 0 && old(off) <= old(size) && old(off) + n <= MAXFILE * BSIZE) then n else -1
      ensures r == n >= 0 ==> off == old(off) + n && size == if n > 0 && off > old(size) then off else old(size)
      ensures r != PANIC ==> |txns| >= |old(txns)| && txns[..|old(txns)|] == old(txns)
      ensures r != PANIC ==> forall k :: |old(txns)| <= k < |txns| ==> |txns[k]| <= MAXOPBLOCKS
    {
      var i := 0;
      var max := (MAXOPBLOCKS - 1 - 1 - 2) / 2 * 512;
      while i < n
        invariant 0 <= i && (n >= 0 ==> i <= n) && (n < 0 ==> i == 0)
        invariant NoHoles(Value()) && off < UINT && off == old(off) + i
        invariant size == if i > 0 && off > old(size) then off else old(size)
        invariant i > 0 ==> old(off) <= old(size) && off <= MAXFILE * BSIZE
        invariant |txns| >= |old(txns)| && txns[..|old(txns)|] == old(txns)
        invariant forall k :: |old(txns)| <= k < |txns| ==> |txns[k]| <= MAXOPBLOCKS
      {
        var n1 := if n - i > max then max else n - i;
        var w := WriteChunk(n1);
        if w == PANIC { return PANIC; }
        if w < 0 { break; }
        i := i + w;
      }
      r := if i == n then n else -1;
    }
  }

  lemma EmptyLog(s: State)
    requires NoHoles(s)
    ensures NoHoles(s.(log := {}))
  {
    assert forall k :: 0 <= k < MAXFILE ==> BlockAt(s.(log := {}), k) == BlockAt(s, k);
  }
}
