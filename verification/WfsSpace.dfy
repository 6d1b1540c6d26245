/** When a WFS write runs out of space, how much it has stored by then, and what that leaves behind. */
module WfsSpace {
  import opened Helpers
  import opened WfsNames
  import opened WfsBlocks
  import opened WfsOps
  import opened WfsFiles
  import opened WfsTheorems
  import opened WfsImage

  // ---- Free blocks ----

  function FreeBlocks(fs: Fs): nat { |ClearBits(fs.dbm)| }

  lemma TakeBit(bm: seq<bool>, b: nat)
    requires b < |bm| && !bm[b]
    ensures |ClearBits(bm[b := true])| == |ClearBits(bm)| - 1
  {
    assert b in ClearBits(bm);
    assert ClearBits(bm[b := true]) == ClearBits(bm) - {b};
  }

  lemma SomeFree(bm: seq<bool>)
    ensures FirstFree(bm, 0) < |bm| <==> |ClearBits(bm)| > 0
  {
    if FirstFree(bm, 0) < |bm| {
      assert FirstFree(bm, 0) in ClearBits(bm);
    } else {
      assert ClearBits(bm) == {};
    }
  }

  function One(b: bool): nat { if b then 1 else 0 }

  predicate HasIndirect(fs: Fs, i: int)
    requires IsFile(fs, i)
  {
    fs.inodes[i].blocks[IND_BLOCK] != 0
  }

  /** File block `n` has no data block. */
  predicate Lacks(fs: Fs, i: int, n: nat)
    requires IsFile(fs, i) && n < MAX_BLOCKS
  {
    PtrAt(fs, i, PosOf(n)) == 0
  }

  /** What `data_offset` allocates for file block `n`, when the indirect block is present or not. */
  function Price(fs: Fs, i: int, n: nat, ind: bool): nat
    requires IsFile(fs, i) && n < MAX_BLOCKS
  {
    One(n >= D_BLOCK && !ind) + One(Lacks(fs, i, n))
  }

  ghost predicate SameFrom(fs: Fs, fs': Fs, i: int, n: nat) {
    IsFile(fs, i) && IsFile(fs', i) && forall m :: n <= m < MAX_BLOCKS ==> Lacks(fs', i, m) == Lacks(fs, i, m)
  }

  lemma FilledSpace(fs: Fs, i: int, k: int)
    requires Ownership(fs) && IsFile(fs, i) && 0 <= k < POSITIONS && k != D_BLOCK
    requires k >= N_BLOCKS ==> fs.inodes[i].blocks[IND_BLOCK] != 0
    ensures var (fs', p) := Filled(fs, i, k); var cost := One(PtrAt(fs, i, k) == 0);
      && (p != 0 <==> cost <= FreeBlocks(fs))
      && (p != 0 ==> FreeBlocks(fs') == FreeBlocks(fs) - cost && PtrAt(fs', i, k) == p)
      && (forall l :: 0 <= l < POSITIONS && l != k ==> PtrAt(fs', i, l) == PtrAt(fs, i, l))
  {
    SomeFree(fs.dbm);
    if PtrAt(fs, i, k) == 0 && FirstFree(fs.dbm, 0) < |fs.dbm| {
      AttachPointers(fs, i, k);
      TakeBit(fs.dbm, FirstFree(fs.dbm, 0));
    }
  }

  /** A block for `n` can be had exactly when enough blocks are free; then exactly those are taken. */
  lemma EnsureSpace(fs: Fs, i: int, n: nat)
    requires Ownership(fs) && IsFile(fs, i) && n < MAX_BLOCKS
    ensures var (fs', p) := EnsureBlock(fs, i, n); var cost := Price(fs, i, n, HasIndirect(fs, i));
      && (p != 0 <==> cost <= FreeBlocks(fs))
      && (p != 0 ==>
           && FreeBlocks(fs') == FreeBlocks(fs) - cost && SameFrom(fs, fs', i, n + 1)
           && (HasIndirect(fs', i) <==> HasIndirect(fs, i) || n >= D_BLOCK))
  {
    if n < D_BLOCK {
      FilledSpace(fs, i, n);
    } else {
      FilledSpace(fs, i, IND_BLOCK);
      FilledGrows(fs, i, IND_BLOCK);
      var (fs1, q) := Filled(fs, i, IND_BLOCK);
      if q != 0 {
        FilledSpace(fs1, i, PosOf(n));
        assert PtrAt(fs1, i, PosOf(n)) == PtrAt(fs, i, PosOf(n));
      }
    }
  }

  lemma ChunkSpace(fs: Fs, i: int, off: nat, buf: seq<Byte>, fs1: Fs, c: nat)
    requires Ownership(fs) && IsFile(fs, i) && buf != [] && (fs1, c) == WriteChunk(fs, i, off, buf)
    ensures off / BLOCK_SIZE >= MAX_BLOCKS ==> c == 0
    ensures off / BLOCK_SIZE < MAX_BLOCKS ==>
      && IsFile(fs1, i)
      && var n := off / BLOCK_SIZE; var cost := Price(fs, i, n, HasIndirect(fs, i));
         if cost > FreeBlocks(fs) then c == 0
         else
           && c == ChunkLen(off, |buf|) && FreeBlocks(fs1) == FreeBlocks(fs) - cost && SameFrom(fs, fs1, i, n + 1)
           && (HasIndirect(fs1, i) <==> HasIndirect(fs, i) || n >= D_BLOCK)
  {
    var n := off / BLOCK_SIZE;
    if n < MAX_BLOCKS {
      EnsureSpace(fs, i, n);
      EnsureGrows(fs, i, n);
      var (mid, p) := EnsureBlock(fs, i, n);
      if p != 0 { StoreSpace(mid, i, n, off % BLOCK_SIZE, buf[..ChunkLen(off, |buf|)]); }
    }
  }

  lemma StoreSpace(fs: Fs, i: int, n: nat, at: nat, src: seq<Byte>)
    requires Ownership(fs) && IsFile(fs, i) && n < MAX_BLOCKS && PtrAt(fs, i, PosOf(n)) != 0 && at + |src| <= BLOCK_SIZE
    ensures var fs' := Store(fs, PtrAt(fs, i, PosOf(n)), at, src);
      SameFrom(fs, fs', i, 0) && fs'.dbm == fs.dbm && HasIndirect(fs', i) == HasIndirect(fs, i)
  {
    StoreByte(fs, i, n, at, src, i, 0);
  }

  // ---- How far a write gets ----

  /** The bytes a write of `len` bytes at `off` stores, from what is there before: `free` free blocks, the file's
      pointers, and whether it has an indirect block. */
  function Stored(fs: Fs, i: int, off: nat, len: nat, free: int, ind: bool): nat
    requires IsFile(fs, i)
    decreases len
  {
    var n := off / BLOCK_SIZE;
    if len == 0 || n >= MAX_BLOCKS || Price(fs, i, n, ind) > free then 0 else
      var c := ChunkLen(off, len);
      c + Stored(fs, i, off + c, len - c, free - Price(fs, i, n, ind), ind || n >= D_BLOCK)
  }

  lemma NextBlock(off: nat, len: nat)
    requires len > 0
    ensures var c := ChunkLen(off, len); c < len ==> (off + c) / BLOCK_SIZE == off / BLOCK_SIZE + 1
    ensures var c := ChunkLen(off, len); c == len ==> (off + len - 1) / BLOCK_SIZE == off / BLOCK_SIZE
    ensures (off + len - 1) / BLOCK_SIZE >= off / BLOCK_SIZE
  {
  }

  lemma {:induction false} StoredSame(fs: Fs, fs': Fs, i: int, off: nat, len: nat, free: int, ind: bool)
    requires SameFrom(fs, fs', i, off / BLOCK_SIZE)
    ensures Stored(fs', i, off, len, free, ind) == Stored(fs, i, off, len, free, ind)
    decreases len
  {
    var n := off / BLOCK_SIZE;
    if len > 0 && n < MAX_BLOCKS && Price(fs, i, n, ind) <= free {
      var c := ChunkLen(off, len);
      NextBlock(off, len);
      if c < len { StoredSame(fs, fs', i, off + c, len - c, free - Price(fs, i, n, ind), ind || n >= D_BLOCK); }
    }
  }

  ghost function StoredBy(fs: Fs, i: int, off: nat, len: nat): nat
    requires IsFile(fs, i)
  {
    Stored(fs, i, off, len, FreeBlocks(fs), HasIndirect(fs, i))
  }

  /** A file in an image whose blocks are owned as they should be; one fact in the proofs that carry it along. */
  ghost predicate Sound(fs: Fs, i: int) { forall j | j == i :: SoundOf(fs, j) }

  ghost predicate SoundOf(fs: Fs, i: int) { Ownership(fs) && IsFile(fs, i) }

  /** One turn of the loop, and what it does to the count */
  lemma StoredTurn(fs: Fs, i: int, off: nat, buf: seq<Byte>) returns (fs1: Fs, c: nat)
    requires Sound(fs, i) && IsFile(fs, i) && buf != []
    ensures Sound(fs1, i) && IsFile(fs1, i) && c <= |buf|
    ensures WriteLoop(fs, i, off, buf).1 == if c == 0 then 0 else c + WriteLoop(fs1, i, off + c, buf[c..]).1
    ensures StoredBy(fs, i, off, |buf|) == if c == 0 then 0 else c + StoredBy(fs1, i, off + c, |buf| - c)
  {
    assert SoundOf(fs, i);
    fs1, c := ChunkProgress(fs, i, off, buf);
    ChunkSpace(fs, i, off, buf, fs1, c);
    LoopUnfolds(fs, i, off, buf, fs1, c);
    if c > 0 { StoredThen(fs, i, off, |buf|, fs1, c); }
  }

  lemma {:induction false} LoopCounts(fs: Fs, i: int, off: nat, buf: seq<Byte>)
    requires Sound(fs, i) && IsFile(fs, i)
    ensures WriteLoop(fs, i, off, buf).1 == StoredBy(fs, i, off, |buf|)
    decreases |buf|
  {
    if buf != [] {
      var fs1, c := StoredTurn(fs, i, off, buf);
      if c > 0 { LoopCounts(fs1, i, off + c, buf[c..]); }
    }
  }

  /** The loop stores what can be told from the image before it. */
  lemma LoopStored(fs: Fs, i: int, off: nat, buf: seq<Byte>, mid: Fs, done: nat)
    requires Ownership(fs) && IsFile(fs, i) && (mid, done) == WriteLoop(fs, i, off, buf)
    ensures done == StoredBy(fs, i, off, |buf|)
  {
    LoopCounts(fs, i, off, buf);
  }

  lemma StoredFirst(fs: Fs, i: int, off: nat, len: nat, free: int, ind: bool)
    requires IsFile(fs, i) && len > 0 && off / BLOCK_SIZE < MAX_BLOCKS && Price(fs, i, off / BLOCK_SIZE, ind) <= free
    ensures var n, c := off / BLOCK_SIZE, ChunkLen(off, len);
      c <= len && Stored(fs, i, off, len, free, ind) ==
        c + Stored(fs, i, off + c, len - c, free - Price(fs, i, n, ind), ind || n >= D_BLOCK)
  {
  }

  lemma StoredThen(fs: Fs, i: int, off: nat, len: nat, fs1: Fs, c: nat)
    requires IsFile(fs, i) && IsFile(fs1, i) && len > 0 && off / BLOCK_SIZE < MAX_BLOCKS && c == ChunkLen(off, len)
    requires var n := off / BLOCK_SIZE; var cost := Price(fs, i, n, HasIndirect(fs, i));
      && cost <= FreeBlocks(fs) && FreeBlocks(fs1) == FreeBlocks(fs) - cost && SameFrom(fs, fs1, i, n + 1)
      && (HasIndirect(fs1, i) <==> HasIndirect(fs, i) || n >= D_BLOCK)
    ensures StoredBy(fs, i, off, len) == c + StoredBy(fs1, i, off + c, len - c)
  {
    NextBlock(off, len);
    var n, ind := off / BLOCK_SIZE, HasIndirect(fs, i);
    var free := FreeBlocks(fs) - Price(fs, i, n, ind);
    StoredFirst(fs, i, off, len, FreeBlocks(fs), ind);
    assert (ind || n >= D_BLOCK) == HasIndirect(fs1, i);
    if c < len { StoredSame(fs, fs1, i, off + c, len - c, free, HasIndirect(fs1, i)); }
  }

  // ---- When a write completes ----

  /** The blocks missing among file blocks `lo` to `hi - 1`. */
  function Missing(fs: Fs, i: int, lo: nat, hi: nat): nat
    requires IsFile(fs, i) && hi <= MAX_BLOCKS
    decreases hi - lo
  {
    if lo >= hi then 0 else One(Lacks(fs, i, lo)) + Missing(fs, i, lo + 1, hi)
  }

  /** The range ends within the largest file, and its missing blocks, with the indirect block if that is missing and
      needed, are not more than `free`. */
  predicate HasSpace(fs: Fs, i: int, off: nat, len: nat, free: int, ind: bool)
    requires IsFile(fs, i)
  {
    len == 0 ||
    var last := (off + len - 1) / BLOCK_SIZE;
    last < MAX_BLOCKS && Missing(fs, i, off / BLOCK_SIZE, last + 1) + One(last >= D_BLOCK && !ind) <= free
  }

  lemma {:induction false} StoredAll(fs: Fs, i: int, off: nat, len: nat, free: int, ind: bool)
    requires IsFile(fs, i)
    ensures Stored(fs, i, off, len, free, ind) <= len
    ensures Stored(fs, i, off, len, free, ind) == len <==> HasSpace(fs, i, off, len, free, ind)
    decreases len
  {
    var n := off / BLOCK_SIZE;
    if len > 0 {
      var c := ChunkLen(off, len);
      if n < MAX_BLOCKS && Price(fs, i, n, ind) <= free {
        StoredAll(fs, i, off + c, len - c, free - Price(fs, i, n, ind), ind || n >= D_BLOCK);
      }
      if c < len { SpaceThen(fs, i, off, len, free, ind); } else { SpaceLast(fs, i, off, len, free, ind); }
    }
  }

  /** The last block of a range. */
  lemma SpaceLast(fs: Fs, i: int, off: nat, len: nat, free: int, ind: bool)
    requires IsFile(fs, i) && len > 0 && ChunkLen(off, len) == len
    ensures var n := off / BLOCK_SIZE;
      HasSpace(fs, i, off, len, free, ind) <==> n < MAX_BLOCKS && Price(fs, i, n, ind) <= free
  {
    NextBlock(off, len);
    var n := off / BLOCK_SIZE;
    if n < MAX_BLOCKS {
      assert Missing(fs, i, n, n + 1) == One(Lacks(fs, i, n)) + Missing(fs, i, n + 1, n + 1);
    }
  }

  lemma SpaceThen(fs: Fs, i: int, off: nat, len: nat, free: int, ind: bool)
    requires IsFile(fs, i) && len > 0 && ChunkLen(off, len) < len
    ensures var n := off / BLOCK_SIZE; var c := ChunkLen(off, len);
      HasSpace(fs, i, off, len, free, ind) <==>
      && n < MAX_BLOCKS && Price(fs, i, n, ind) <= free
      && HasSpace(fs, i, off + c, len - c, free - Price(fs, i, n, ind), ind || n >= D_BLOCK)
  {
    NextBlock(off, len);
    var n, c, last := off / BLOCK_SIZE, ChunkLen(off, len), (off + len - 1) / BLOCK_SIZE;
    NextBlock(off + c, len - c);
    assert (off + c) + (len - c) - 1 == off + len - 1;
    if last < MAX_BLOCKS {
      assert Missing(fs, i, n, last + 1) == One(Lacks(fs, i, n)) + Missing(fs, i, n + 1, last + 1);
      assert One(last >= D_BLOCK && !ind) == One(n >= D_BLOCK && !ind) + One(last >= D_BLOCK && !(ind || n >= D_BLOCK));
    }
  }

  /** A write completes exactly when its range has space; otherwise it answers ENOSPC. */
  lemma WriteOkIff(fs: Fs, i: int, off: nat, buf: seq<Byte>)
    requires Ownership(fs) && IsFile(fs, i)
    ensures var r := WriteFile(fs, i, off, buf).1;
      r == if HasSpace(fs, i, off, |buf|, FreeBlocks(fs), HasIndirect(fs, i)) then Ok(|buf|) else Err(ENOSPC)
  {
    var r := WriteLoop(fs, i, off, buf);
    LoopStored(fs, i, off, buf, r.0, r.1);
    StoredAll(fs, i, off, |buf|, FreeBlocks(fs), HasIndirect(fs, i));
  }

  // ---- What a write that runs out of space leaves behind ----

  /** After a write nothing lies stored beyond the size exactly when there was space for all of it, or the bytes that
      there was space for are zero beyond the size. */
  lemma FailedWrite(fs: Fs, i: int, off: nat, buf: seq<Byte>)
    requires Ownership(fs) && IsFile(fs, i) && CleanTail(fs, i)
    ensures var fs' := WriteFile(fs, i, off, buf).0; var done := StoredBy(fs, i, off, |buf|);
      && IsFile(fs', i) && done <= |buf|
      && (CleanTail(fs', i) <==>
           || HasSpace(fs, i, off, |buf|, FreeBlocks(fs), HasIndirect(fs, i))
           || forall x :: 0 <= x < done && off + x >= fs.inodes[i].size ==> buf[x] == 0)
      && (done < |buf| ==>
           && fs'.inodes[i].size == fs.inodes[i].size
           && forall x: nat :: ByteAt(fs', i, x) == if off <= x < off + done then buf[x - off] else ByteAt(fs, i, x))
  {
    var r := WriteLoop(fs, i, off, buf);
    LoopStored(fs, i, off, buf, r.0, r.1);
    StoredAll(fs, i, off, |buf|, FreeBlocks(fs), HasIndirect(fs, i));
    if r.1 == |buf| {
      WriteRefinesFlat(fs, i, off, buf);
    } else {
      CutShort(fs, i, off, buf, r.0, r.1);
      StoredTail(fs, i, off, buf);
    }
  }

  lemma CutShort(fs: Fs, i: int, off: nat, buf: seq<Byte>, mid: Fs, done: nat)
    requires Ownership(fs) && IsFile(fs, i) && (mid, done) == WriteLoop(fs, i, off, buf) && IsFile(mid, i)
    ensures done <= |buf| && mid.inodes[i].size == fs.inodes[i].size
    ensures forall x: nat :: ByteAt(mid, i, x) == if off <= x < off + done then buf[x - off] else ByteAt(fs, i, x)
  {
    LoopWrote(fs, i, off, buf, mid, done);
    assert SameHeader(fs.inodes[i], mid.inodes[i]);
    forall x: nat ensures ByteAt(mid, i, x) == if off <= x < off + done then buf[x - off] else ByteAt(fs, i, x) {
      assert off <= x < off + done ==> buf[..done][x - off] == buf[x - off];
    }
  }

  /** A nonzero byte beyond the size shows up as soon as a later write extends the file past it: the read is not what
      the flat file with a hole of zeros says. */
  lemma Exposed(fs: Fs, i: int, x: nat)
    requires Ownership(fs) && IsFile(fs, i) && x >= fs.inodes[i].size && ByteAt(fs, i, x) != 0
    requires (x + 1) / BLOCK_SIZE == x / BLOCK_SIZE
    ensures var (fs', r) := WriteFile(fs, i, x + 1, [0]);
      && r == Ok(1) && IsFile(fs', i) && ReadFile(fs', i, x, 1) == Ok([ByteAt(fs, i, x)])
      && Flat(fs', i) != Overlay(Flat(fs, i), x + 1, [0])
  {
    ExtendOk(fs, i, x);
    var mid := WriteEnds(fs, i, x + 1, [0]);
    Extended(fs, mid, i, x);
  }

  /** One more byte in a block that is there. */
  lemma ExtendOk(fs: Fs, i: int, x: nat)
    requires Ownership(fs) && IsFile(fs, i) && ByteAt(fs, i, x) != 0 && (x + 1) / BLOCK_SIZE == x / BLOCK_SIZE
    ensures WriteFile(fs, i, x + 1, [0]).1 == Ok(1)
  {
    var n := x / BLOCK_SIZE;
    assert !Lacks(fs, i, n) && (n >= D_BLOCK ==> HasIndirect(fs, i));
    assert Missing(fs, i, n, n + 1) == One(Lacks(fs, i, n)) + Missing(fs, i, n + 1, n + 1);
    WriteOkIff(fs, i, x + 1, [0]);
  }

  lemma Extended(fs: Fs, mid: Fs, i: int, x: nat)
    requires Progress(fs, mid, i, x + 1, [0], 1) && IsFile(mid, i) && x >= fs.inodes[i].size && ByteAt(fs, i, x) != 0
    ensures var fs' := Resized(mid, i, x + 2);
      && IsFile(fs', i) && ReadFile(fs', i, x, 1) == Ok([ByteAt(fs, i, x)])
      && Flat(fs', i) != Overlay(Flat(fs, i), x + 1, [0])
  {
    var fs' := Resized(mid, i, x + 2);
    ResizedBytes(fs, mid, i, x + 1, [0], i, x);
    assert fs'.inodes[i].size == x + 2 by { assert SameHeader(fs.inodes[i], mid.inodes[i]); }
    assert Flat(fs', i)[x] == ByteAt(fs, i, x);
    assert Overlay(Flat(fs, i), x + 1, [0])[x] == 0;
    assert BytesAt(fs', i, x, 1) == [ByteAt(fs, i, x)];
  }

  /** A write of no bytes succeeds and raises the size to the offset if that lies beyond it. */
  lemma ZeroWrite(fs: Fs, i: int, off: nat)
    requires Ownership(fs) && IsFile(fs, i)
    ensures var (fs', r) := WriteFile(fs, i, off, []);
      && r == Ok(0) && IsFile(fs', i) && fs'.dbm == fs.dbm && fs'.data == fs.data
      && fs'.inodes[i].size == Max(fs.inodes[i].size, off)
      && (fs' == fs <==> off <= fs.inodes[i].size)
  {
    var fs' := WriteFile(fs, i, off, []).0;
    if off <= fs.inodes[i].size {
      assert fs'.inodes[i] == fs.inodes[i];
      assert fs'.inodes == fs.inodes;
    }
  }

  // ---- An input that shows it ----

  /** File `i` is new: it has no bytes and no blocks. */
  ghost predicate New(fs: Fs, i: int) {
    IsFile(fs, i) && fs.inodes[i].size == 0 && fs.inodes[i].blocks == NoBlocks()
  }

  lemma NewLacks(fs: Fs, i: int)
    requires New(fs, i)
    ensures !HasIndirect(fs, i) && CleanTail(fs, i)
    ensures forall n :: 0 <= n < MAX_BLOCKS ==> Lacks(fs, i, n)
  {
    forall n | 0 <= n < MAX_BLOCKS ensures Lacks(fs, i, n) {
      assert PtrAt(fs, i, PosOf(n)) == 0;
    }
  }

  lemma {:induction false} AllMissing(fs: Fs, i: int, lo: nat, hi: nat)
    requires IsFile(fs, i) && lo <= hi <= MAX_BLOCKS && forall n :: lo <= n < hi ==> Lacks(fs, i, n)
    ensures Missing(fs, i, lo, hi) == hi - lo
    decreases hi - lo
  {
    if lo < hi { AllMissing(fs, i, lo + 1, hi); }
  }

  /** A new file on a disk with few free blocks: a write of one byte more than they hold is refused, leaves its first
      bytes behind, and the next small write makes one of them readable. */
  lemma FullDisk(fs: Fs, i: int, buf: seq<Byte>)
    requires Ownership(fs) && New(fs, i) && 1 <= FreeBlocks(fs) < MAX_BLOCKS
    requires |buf| == FreeBlocks(fs) * BLOCK_SIZE + 1 && forall x :: 0 <= x < |buf| ==> buf[x] == 1
    ensures var (fs1, r1) := WriteFile(fs, i, 0, buf);
      && r1 == Err(ENOSPC) && IsFile(fs1, i) && Ownership(fs1) && !CleanTail(fs1, i)
      && var (fs2, r2) := WriteFile(fs1, i, 1, [0]);
         r2 == Ok(1) && IsFile(fs2, i) && ReadFile(fs2, i, 0, 1) == Ok([1])
         && Flat(fs2, i) != Overlay(Flat(fs1, i), 1, [0])
  {
    NewLacks(fs, i);
    var last := (|buf| - 1) / BLOCK_SIZE;
    assert last == FreeBlocks(fs);
    AllMissing(fs, i, 0, last + 1);
    WriteOkIff(fs, i, 0, buf);
    FailedWrite(fs, i, 0, buf);
    FirstStored(fs, i, |buf|);
    var fs1 := WriteFile(fs, i, 0, buf).0;
    var r := WriteLoop(fs, i, 0, buf);
    LoopWrote(fs, i, 0, buf, r.0, r.1);
    assert ByteAt(fs1, i, 0) == 1;
    Exposed(fs1, i, 0);
  }

  lemma FirstStored(fs: Fs, i: int, len: nat)
    requires New(fs, i) && FreeBlocks(fs) >= 1 && len > 0
    ensures StoredBy(fs, i, 0, len) > 0
  {
    NewLacks(fs, i);
    assert Price(fs, i, 0, HasIndirect(fs, i)) == 1;
  }

  /** Such a disk is one mknod away from a fresh image with 32 blocks. */
  lemma FreshFile() returns (fs: Fs, i: nat)
    ensures Create(Formatted(32, 32), ["f"], false) == (fs, Ok(i))
    ensures Healthy(fs) && New(fs, i) && 1 <= FreeBlocks(fs) < MAX_BLOCKS
  {
    var fs0, path := Formatted(32, 32), ["f"];
    FormattedHealthy(32, 32);
    FormattedRoom(fs0);
    assert path[..0] == [] && path[..|path| - 1] == [];
    CreateOkIff(fs0, path, false);
    CreateKeeps(fs0, path, false);
    CreateNoDots(fs0, path, false);
    var r := Create(fs0, path, false);
    fs, i := r.0, r.1.value;
    CreatedNew(fs0, [], "f");
  }

  lemma FormattedRoom(fs: Fs)
    requires fs == Formatted(32, 32) && FsInv(fs)
    ensures FreeBlocks(fs) == 32 && |fs.dbm| == 32 && FirstFree(fs.ibm, 0) < |fs.ibm|
    ensures Resolve(NsOf(fs), []) == Some(0) && IsDir(NsOf(fs), 0) && HasRoom(fs, 0) && Resolve(NsOf(fs), ["f"]) == None
  {
    BitsSplit(fs.dbm, 32);
    assert SetBits(fs.dbm) == {};
    SomeFree(fs.dbm);
    assert !fs.ibm[1];
    assert DirEnts(fs, 0)[0] == DirEnt(fs, 0, 0) == FREE;
    assert ["f"][..0] == [];
    assert FindName(DirEnts(fs, 0), "f", 0) == SLOTS by {
      assert forall k :: 0 <= k < SLOTS ==> DirEnts(fs, 0)[k] == DirEnt(fs, 0, k) == FREE;
    }
  }

  /** Creation takes at most one block, and a new file has none. */
  lemma CreatedNew(fs: Fs, p: seq<string>, name: string)
    requires Ownership(fs) && Shape(NsOf(fs)) && CreateIn(fs, p, name, false).1.Ok?
    ensures var (fs', r) := CreateIn(fs, p, name, false);
      New(fs', r.value) && FreeBlocks(fs) - 1 <= FreeBlocks(fs') <= FreeBlocks(fs)
  {
    CreateInChecks(fs, p, name, false);
    var r := CreateIn(fs, p, name, false).1;
    var d := Locate(fs, p).value;
    var k := FreeSlot(DirEnts(fs, d), 0);
    AnnounceOk(fs, d, r.value, false);
    var fs1 := Announce(fs, d, r.value, false);
    EnterOwnership(fs1, d, k, Dentry(name, r.value));
    if fs1.inodes[d].blocks[k / PER_BLOCK] == 0 {
      AttachPointers(fs1, d, k / PER_BLOCK);
      TakeBit(fs1.dbm, FirstFree(fs1.dbm, 0));
    }
  }
}
