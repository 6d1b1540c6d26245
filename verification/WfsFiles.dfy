/** File contents: chunked reads and writes over direct and indirect blocks refine a flat byte array. */
module WfsFiles {
  import opened WfsNames
  import opened WfsBlocks
  import opened WfsOps

  const MAX_BLOCKS: nat := 70 // D_BLOCK + INDIRECT

  /** The position that holds the pointer to file block `n`. */
  function PosOf(n: nat): (k: nat)
    requires n < MAX_BLOCKS
    ensures k < POSITIONS && k != D_BLOCK && k != IND_BLOCK
  {
    if n < D_BLOCK then n else N_BLOCKS + (n - D_BLOCK)
  }

  function RawByte(data: seq<Block>, p: nat, j: nat): Byte {
    if 0 < p <= |data| && data[p - 1].Raw? && j < |data[p - 1].bytes| then data[p - 1].bytes[j] else 0
  }

  predicate IsFile(fs: Fs, i: int) {
    WellFormed(fs) && 0 <= i < |fs.inodes| && fs.ibm[i] && !fs.inodes[i].isDir
  }

  /** The byte a read delivers at offset `x`; a missing block reads as zeros. */
  function ByteAt(fs: Fs, i: int, x: nat): Byte
    requires IsFile(fs, i)
  {
    if x / BLOCK_SIZE < MAX_BLOCKS then RawByte(fs.data, PtrAt(fs, i, PosOf(x / BLOCK_SIZE)), x % BLOCK_SIZE) else 0
  }

  // ---- data_offset with alloc ----

  /** Allocate a block for position `k` if it has none. */
  function Filled(fs: Fs, i: int, k: int): (r: (Fs, nat))
    requires IsFile(fs, i) && 0 <= k < POSITIONS && k != D_BLOCK
    requires k >= N_BLOCKS ==> fs.inodes[i].blocks[IND_BLOCK] != 0
    ensures IsFile(r.0, i) && (k == IND_BLOCK && r.1 != 0 ==> r.0.inodes[i].blocks[IND_BLOCK] != 0)
  {
    if PtrAt(fs, i, k) != 0 then (fs, PtrAt(fs, i, k))
    else if FirstFree(fs.dbm, 0) == |fs.dbm| then (fs, 0)
    else (Attach(fs, i, k), FirstFree(fs.dbm, 0) + 1)
  }

  /** The block for file block `n`, allocating it (and the indirect block) as needed; 0 when space ran out. */
  function EnsureBlock(fs: Fs, i: int, n: nat): (r: (Fs, nat))
    requires IsFile(fs, i)
    ensures IsFile(r.0, i)
  {
    if n >= MAX_BLOCKS then (fs, 0)
    else if n < D_BLOCK then Filled(fs, i, n)
    else
      var (fs1, q) := Filled(fs, i, IND_BLOCK);
      if q == 0 then (fs1, 0) else Filled(fs1, i, PosOf(n))
  }

  /** Ownership holds in `fs'`, and inode headers and names are those of `fs`. */
  ghost predicate Kept(fs: Fs, fs': Fs) {
    && WellFormed(fs) && Ownership(fs') && SameInodes(fs, fs')
    && NsOf(fs') == NsOf(fs)
    && (SizesCover(fs) ==> SizesCover(fs'))
  }

  /** The bytes `src` were stored at `off` of file `i`; no other byte of any file changed. */
  ghost predicate Wrote(fs: Fs, fs': Fs, i: int, off: nat, src: seq<Byte>) {
    && WellFormed(fs) && WellFormed(fs') && SameInodes(fs, fs')
    && (forall j, x: nat :: IsFile(fs, j) ==>
          ByteAt(fs', j, x) == if j == i && off <= x < off + |src| then src[x - off] else ByteAt(fs, j, x))
  }

  /** No byte of any file changed. */
  ghost predicate SameBytes(fs: Fs, fs': Fs) {
    && WellFormed(fs) && WellFormed(fs') && SameInodes(fs, fs')
    && forall j, x: nat :: IsFile(fs, j) ==> ByteAt(fs', j, x) == ByteAt(fs, j, x)
  }

  lemma AttachByte(fs: Fs, i: int, k: int, j: int, x: nat)
    requires Ownership(fs) && CanAttach(fs, i, k) && IsFile(fs, j)
    ensures IsFile(Attach(fs, i, k), j) && ByteAt(Attach(fs, i, k), j, x) == ByteAt(fs, j, x)
  {
    AttachPointers(fs, i, k);
    if x / BLOCK_SIZE < MAX_BLOCKS {
      var l := PosOf(x / BLOCK_SIZE);
      assert PtrOk(fs, j, l) && PtrOk(fs, i, IND_BLOCK);
      AttachOther(fs, i, k, j, l);
    }
  }

  lemma AttachGrows(fs: Fs, i: int, k: int)
    requires Ownership(fs) && CanAttach(fs, i, k) && !fs.inodes[i].isDir
    ensures Kept(fs, Attach(fs, i, k)) && SameBytes(fs, Attach(fs, i, k))
  {
    AttachPointers(fs, i, k);
    AttachOwnership(fs, Attach(fs, i, k), i, k, FirstFree(fs.dbm, 0));
    AttachKeepsNs(fs, i, k);
    forall j, x: nat | IsFile(fs, j) ensures ByteAt(Attach(fs, i, k), j, x) == ByteAt(fs, j, x) {
      AttachByte(fs, i, k, j, x);
    }
  }

  lemma FilledGrows(fs: Fs, i: int, k: int)
    requires Ownership(fs) && IsFile(fs, i) && 0 <= k < POSITIONS && k != D_BLOCK
    requires k >= N_BLOCKS ==> fs.inodes[i].blocks[IND_BLOCK] != 0
    ensures var (fs', p) := Filled(fs, i, k);
      && Kept(fs, fs') && SameBytes(fs, fs')
      && (p != 0 ==> PtrAt(fs', i, k) == p) && (p == 0 ==> fs' == fs)
  {
    if PtrAt(fs, i, k) == 0 && FirstFree(fs.dbm, 0) < |fs.dbm| {
      AttachGrows(fs, i, k);
      AttachPointers(fs, i, k);
    }
  }

  lemma EnsureGrows(fs: Fs, i: int, n: nat)
    requires Ownership(fs) && IsFile(fs, i)
    ensures var (fs', p) := EnsureBlock(fs, i, n);
      && Kept(fs, fs') && SameBytes(fs, fs')
      && (p != 0 ==> n < MAX_BLOCKS && PtrAt(fs', i, PosOf(n)) == p)
  {
    if n < D_BLOCK {
      FilledGrows(fs, i, n);
    } else if n < MAX_BLOCKS {
      FilledGrows(fs, i, IND_BLOCK);
      var (fs1, q) := Filled(fs, i, IND_BLOCK);
      if q != 0 {
        FilledGrows(fs1, i, PosOf(n));
        SameBytesTwice(fs, fs1, Filled(fs1, i, PosOf(n)).0);
      }
    }
  }

  lemma SameBytesTwice(fs: Fs, fs1: Fs, fs2: Fs)
    requires SameBytes(fs, fs1) && SameBytes(fs1, fs2)
    ensures SameBytes(fs, fs2)
  {
    forall j, x: nat | IsFile(fs, j) ensures ByteAt(fs2, j, x) == ByteAt(fs, j, x) {
      assert IsFile(fs1, j);
      assert ByteAt(fs1, j, x) == ByteAt(fs, j, x);
    }
  }

  // ---- Storing a chunk ----

  function Overwrite(b: seq<Byte>, at: nat, src: seq<Byte>): (r: seq<Byte>)
    requires at + |src| <= |b|
    ensures |r| == |b|
    ensures forall j :: 0 <= j < |b| ==> r[j] == if at <= j < at + |src| then src[j - at] else b[j]
  {
    b[..at] + src + b[at + |src|..]
  }

  /** memcpy of a chunk into the block `p` points at */
  function Store(fs: Fs, p: nat, at: nat, src: seq<Byte>): (fs': Fs)
    ensures WellFormed(fs) ==> WellFormed(fs') && fs'.inodes == fs.inodes && fs'.ibm == fs.ibm
  {
    if 0 < p <= |fs.data| && fs.data[p - 1].Raw? && at + |src| <= |fs.data[p - 1].bytes| then
      fs.(data := fs.data[p - 1 := Raw(Overwrite(fs.data[p - 1].bytes, at, src))])
    else fs
  }

  lemma InBlock(n: nat, at: nat, len: nat, x: nat)
    requires at + len <= BLOCK_SIZE
    ensures n * BLOCK_SIZE + at <= x < n * BLOCK_SIZE + at + len <==>
      x / BLOCK_SIZE == n && at <= x % BLOCK_SIZE < at + len
    ensures x / BLOCK_SIZE == n ==> x - n * BLOCK_SIZE == x % BLOCK_SIZE
  {
  }

  lemma StoreByte(fs: Fs, i: int, n: nat, at: nat, src: seq<Byte>, j: int, x: nat)
    requires Ownership(fs) && IsFile(fs, i) && IsFile(fs, j) && n < MAX_BLOCKS && PtrAt(fs, i, PosOf(n)) != 0
    requires at + |src| <= BLOCK_SIZE
    ensures var fs' := Store(fs, PtrAt(fs, i, PosOf(n)), at, src);
      && SamePointers(fs, fs') && IsFile(fs', j)
      && ByteAt(fs', j, x) ==
         if j == i && n * BLOCK_SIZE + at <= x < n * BLOCK_SIZE + at + |src| then src[x - n * BLOCK_SIZE - at]
         else ByteAt(fs, j, x)
  {
    StoreByteAt(fs, i, n, at, src, j, x / BLOCK_SIZE, x % BLOCK_SIZE);
    InBlock(n, at, |src|, x);
  }

  /** Byte `y` of file block `m`. */
  lemma StoreByteAt(fs: Fs, i: int, n: nat, at: nat, src: seq<Byte>, j: int, m: nat, y: nat)
    requires Ownership(fs) && IsFile(fs, i) && IsFile(fs, j) && n < MAX_BLOCKS && PtrAt(fs, i, PosOf(n)) != 0
    requires at + |src| <= BLOCK_SIZE && y < BLOCK_SIZE
    ensures var fs' := Store(fs, PtrAt(fs, i, PosOf(n)), at, src);
      && SamePointers(fs, fs') && IsFile(fs', j)
      && (m < MAX_BLOCKS ==>
            RawByte(fs'.data, PtrAt(fs', j, PosOf(m)), y) ==
            if j == i && m == n && at <= y < at + |src| then src[y - at]
              else RawByte(fs.data, PtrAt(fs, j, PosOf(m)), y))
  {
    var p := PtrAt(fs, i, PosOf(n));
    assert PtrOk(fs, i, PosOf(n));
    ReplaceBlock(fs, p - 1, Raw(Overwrite(fs.data[p - 1].bytes, at, src)));
    if m < MAX_BLOCKS { SoleOwner(fs, i, PosOf(n), j, PosOf(m)); }
  }

  // ---- The write loop ----

  function Min(a: int, b: int): int { if a < b then a else b }

  function ChunkLen(off: nat, len: nat): (c: nat)
    ensures c <= len && c <= BLOCK_SIZE - off % BLOCK_SIZE && (len > 0 ==> c > 0)
  {
    Min(len, BLOCK_SIZE - off % BLOCK_SIZE)
  }

  /** One turn of the write loop: find or allocate the block, copy a chunk; 0 bytes when space ran out. */
  function WriteChunk(fs: Fs, i: int, off: nat, buf: seq<Byte>): (r: (Fs, nat))
    requires IsFile(fs, i)
    ensures r.1 <= |buf| && IsFile(r.0, i)
  {
    var (fs1, p) := EnsureBlock(fs, i, off / BLOCK_SIZE);
    if p == 0 then (fs1, 0)
    else (Store(fs1, p, off % BLOCK_SIZE, buf[..ChunkLen(off, |buf|)]), ChunkLen(off, |buf|))
  }

  lemma StoreEntry(fs: Fs, p: nat, at: nat, src: seq<Byte>, d: int, k: int)
    requires WellFormed(fs) && 0 <= d < |fs.inodes| && 0 <= k < SLOTS && WellFormed(Store(fs, p, at, src))
    ensures DirEnt(Store(fs, p, at, src), d, k) == DirEnt(fs, d, k)
  {
  }

  lemma StoreKept(fs: Fs, i: int, n: nat, at: nat, src: seq<Byte>)
    requires Ownership(fs) && IsFile(fs, i) && n < MAX_BLOCKS && PtrAt(fs, i, PosOf(n)) != 0 && at + |src| <= BLOCK_SIZE
    ensures Kept(fs, Store(fs, PtrAt(fs, i, PosOf(n)), at, src))
  {
    var fs' := Store(fs, PtrAt(fs, i, PosOf(n)), at, src);
    StoreByte(fs, i, n, at, src, i, 0);
    ContentOwnership(fs, fs');
    forall d, k | 0 <= d < |fs.ibm| && 0 <= k < SLOTS ensures DirEnt(fs', d, k) == DirEnt(fs, d, k) {
      StoreEntry(fs, PtrAt(fs, i, PosOf(n)), at, src, d, k);
    }
    NsAgree(fs, fs');
  }

  lemma StoreWrote(fs: Fs, i: int, n: nat, at: nat, src: seq<Byte>)
    requires Ownership(fs) && IsFile(fs, i) && n < MAX_BLOCKS && PtrAt(fs, i, PosOf(n)) != 0 && at + |src| <= BLOCK_SIZE
    ensures Wrote(fs, Store(fs, PtrAt(fs, i, PosOf(n)), at, src), i, n * BLOCK_SIZE + at, src)
  {
    forall j, x: nat | IsFile(fs, j)
      ensures ByteAt(Store(fs, PtrAt(fs, i, PosOf(n)), at, src), j, x) ==
        if j == i && n * BLOCK_SIZE + at <= x < n * BLOCK_SIZE + at + |src| then src[x - (n * BLOCK_SIZE + at)]
          else ByteAt(fs, j, x)
    {
      StoreByte(fs, i, n, at, src, j, x);
    }
  }

  lemma GrownThenWrote(fs: Fs, fs1: Fs, fs2: Fs, i: int, off: nat, src: seq<Byte>)
    requires SameBytes(fs, fs1) && Wrote(fs1, fs2, i, off, src)
    ensures Wrote(fs, fs2, i, off, src)
  {
    forall j, x: nat | IsFile(fs, j)
      ensures ByteAt(fs2, j, x) == if j == i && off <= x < off + |src| then src[x - off] else ByteAt(fs, j, x)
    {
      assert IsFile(fs1, j);
      assert ByteAt(fs1, j, x) == ByteAt(fs, j, x);
    }
  }

  lemma WroteTwice(fs: Fs, fs1: Fs, fs2: Fs, i: int, off: nat, a: seq<Byte>, b: seq<Byte>)
    requires Wrote(fs, fs1, i, off, a) && Wrote(fs1, fs2, i, off + |a|, b)
    ensures Wrote(fs, fs2, i, off, a + b)
  {
    forall j, x: nat | IsFile(fs, j)
      ensures ByteAt(fs2, j, x) == if j == i && off <= x < off + |a + b| then (a + b)[x - off] else ByteAt(fs, j, x)
    {
      assert IsFile(fs1, j);
      assert ByteAt(fs1, j, x) == if j == i && off <= x < off + |a| then a[x - off] else ByteAt(fs, j, x);
    }
  }

  lemma Splice<T>(buf: seq<T>, c: nat, done: nat)
    requires c + done <= |buf|
    ensures buf[..c] + buf[c..][..done] == buf[..c + done]
  {
  }

  /** The chunk goes into the block that is now there. */
  lemma ChunkStored(fs: Fs, fs1: Fs, i: int, off: nat, p: nat, src: seq<Byte>)
    requires Kept(fs, fs1) && SameBytes(fs, fs1) && IsFile(fs1, i) && off / BLOCK_SIZE < MAX_BLOCKS
    requires PtrAt(fs1, i, PosOf(off / BLOCK_SIZE)) == p != 0 && off % BLOCK_SIZE + |src| <= BLOCK_SIZE
    ensures var fs2 := Store(fs1, p, off % BLOCK_SIZE, src); Kept(fs, fs2) && Wrote(fs, fs2, i, off, src)
  {
    var n, at := off / BLOCK_SIZE, off % BLOCK_SIZE;
    StoreKept(fs1, i, n, at, src);
    StoreWrote(fs1, i, n, at, src);
    GrownThenWrote(fs, fs1, Store(fs1, p, at, src), i, off, src);
  }

  lemma ChunkWrote(fs: Fs, i: int, off: nat, buf: seq<Byte>)
    requires Ownership(fs) && IsFile(fs, i) && buf != []
    ensures var r := WriteChunk(fs, i, off, buf); Kept(fs, r.0) && Wrote(fs, r.0, i, off, buf[..r.1])
  {
    var n := off / BLOCK_SIZE;
    EnsureGrows(fs, i, n);
    var (fs1, p) := EnsureBlock(fs, i, n);
    if p != 0 {
      ChunkStored(fs, fs1, i, off, p, buf[..ChunkLen(off, |buf|)]);
    }
  }

  /** A write of `buf` at `off` of file `i` that began on `fs` has stored its first `done` bytes, and has
      touched no other byte of any file, no header and no name. */
  ghost predicate Progress(fs: Fs, mid: Fs, i: int, off: nat, buf: seq<Byte>, done: nat) {
    done <= |buf| && IsFile(fs, i) && Kept(fs, mid) && Wrote(fs, mid, i, off, buf[..done])
  }

  lemma ProgressStep(fs: Fs, mid: Fs, mid': Fs, i: int, off: nat, buf: seq<Byte>, done: nat, c: nat)
    requires Progress(fs, mid, i, off, buf, done) && done + c <= |buf|
    requires Kept(mid, mid') && Wrote(mid, mid', i, off + done, buf[done..][..c])
    ensures Progress(fs, mid', i, off, buf, done + c)
  {
    WroteTwice(fs, mid, mid', i, off, buf[..done], buf[done..][..c]);
    Splice(buf, done, c);
  }

  /** The write loop of wfs_write: the image and the bytes stored when it ends or space runs out. */
  function WriteLoop(fs: Fs, i: int, off: nat, buf: seq<Byte>): (r: (Fs, nat))
    requires IsFile(fs, i)
    ensures r.1 <= |buf| && IsFile(r.0, i)
    decreases |buf|, 1
  {
    if buf == [] then (fs, 0) else AfterChunk(WriteChunk(fs, i, off, buf), i, off, buf)
  }

  /** The rest of the loop after its first turn. */
  function AfterChunk(turn: (Fs, nat), i: int, off: nat, buf: seq<Byte>): (r: (Fs, nat))
    requires IsFile(turn.0, i) && turn.1 <= |buf|
    ensures r.1 <= |buf| && IsFile(r.0, i)
    decreases |buf|, 0
  {
    if turn.1 == 0 then turn else Later(turn.1, WriteLoop(turn.0, i, off + turn.1, buf[turn.1..]))
  }

  lemma ChunkProgress(fs: Fs, i: int, off: nat, buf: seq<Byte>) returns (fs1: Fs, c: nat)
    requires Ownership(fs) && IsFile(fs, i) && buf != []
    ensures (fs1, c) == WriteChunk(fs, i, off, buf) && Ownership(fs1) && IsFile(fs1, i)
    ensures c <= |buf| && Progress(fs, fs1, i, off, buf, c)
  {
    var r := WriteChunk(fs, i, off, buf);
    fs1, c := r.0, r.1;
    ChunkWrote(fs, i, off, buf);
  }

  lemma ProgressJoin(fs: Fs, mid: Fs, end: Fs, i: int, off: nat, buf: seq<Byte>, c: nat, d: nat)
    requires c <= |buf| && Progress(fs, mid, i, off, buf, c) && Progress(mid, end, i, off + c, buf[c..], d)
    ensures Progress(fs, end, i, off, buf, c + d)
  {
    ProgressStep(fs, mid, end, i, off, buf, c, d);
  }

  lemma LoopUnfolds(fs: Fs, i: int, off: nat, buf: seq<Byte>, fs1: Fs, c: nat)
    requires IsFile(fs, i) && buf != [] && (fs1, c) == WriteChunk(fs, i, off, buf)
    ensures IsFile(fs1, i) && c <= |buf|
    ensures WriteLoop(fs, i, off, buf) ==
      if c == 0 then (fs1, 0) else Later(c, WriteLoop(fs1, i, off + c, buf[c..]))
  {
  }

  function Later(c: nat, r: (Fs, nat)): (Fs, nat) { (r.0, c + r.1) }

  /** The loop stores a prefix of the buffer and nothing else. */
  lemma {:induction false} LoopWrote(fs: Fs, i: int, off: nat, buf: seq<Byte>, mid: Fs, done: nat)
    requires Ownership(fs) && IsFile(fs, i) && (mid, done) == WriteLoop(fs, i, off, buf)
    ensures Progress(fs, mid, i, off, buf, done)
    decreases |buf|
  {
    if buf != [] {
      var fs1, c := ChunkProgress(fs, i, off, buf);
      LoopUnfolds(fs, i, off, buf, fs1, c);
      if c > 0 {
        var rest := WriteLoop(fs1, i, off + c, buf[c..]);
        LoopWrote(fs1, i, off + c, buf[c..], rest.0, rest.1);
        ProgressJoin(fs, fs1, rest.0, i, off, buf, c, rest.1);
      }
    }
  }

  /** wfs_write on file `i`: the size is raised only when every byte was stored. */
  function WriteFile(fs: Fs, i: int, off: nat, buf: seq<Byte>): (Fs, Res<nat>)
    requires IsFile(fs, i)
  {
    var (mid, done) := WriteLoop(fs, i, off, buf);
    if done == |buf| then (Resized(mid, i, off + done), Ok(done)) else (mid, Err(ENOSPC))
  }

  /** The last step of a successful wfs_write. */
  function Resized(mid: Fs, i: int, end: nat): Fs
    requires IsFile(mid, i)
  {
    SetHeader(mid, i, Max(mid.inodes[i].size, end), mid.inodes[i].nlinks)
  }

  function BytesAt(fs: Fs, i: int, off: nat, n: nat): (r: seq<Byte>)
    requires IsFile(fs, i)
    ensures |r| == n && forall x :: 0 <= x < n ==> r[x] == ByteAt(fs, i, off + x)
  {
    seq(n, x requires 0 <= x => ByteAt(fs, i, off + x))
  }

  /** wfs_read on inode `i` */
  function ReadFile(fs: Fs, i: int, off: nat, len: nat): (r: Res<seq<Byte>>)
    requires WellFormed(fs) && 0 <= i < |fs.inodes| && fs.ibm[i]
  {
    if fs.inodes[i].isDir then Err(EISDIR)
    else if off >= fs.inodes[i].size then Ok([])
    else Ok(BytesAt(fs, i, off, Min(len, fs.inodes[i].size - off)))
  }

  // ---- The flat file ----

  /** A file as a byte array of its size. */
  function Flat(fs: Fs, i: int): (f: seq<Byte>)
    requires IsFile(fs, i)
    ensures |f| == fs.inodes[i].size && forall x :: 0 <= x < |f| ==> f[x] == ByteAt(fs, i, x)
  {
    seq(fs.inodes[i].size, x requires 0 <= x => ByteAt(fs, i, x))
  }

  /** Overwriting a byte array, extending it with zeros up to `off` if needed. */
  function Overlay(f: seq<Byte>, off: nat, buf: seq<Byte>): (r: seq<Byte>)
    ensures |r| == Max(|f|, off + |buf|)
    ensures forall x :: 0 <= x < |r| ==>
      r[x] == if off <= x < off + |buf| then buf[x - off] else if x < |f| then f[x] else 0
  {
    seq(Max(|f|, off + |buf|), x requires 0 <= x =>
        if off <= x < off + |buf| then buf[x - off] else if x < |f| then f[x] else 0)
  }

  /** No stored byte lies beyond the size. */
  ghost predicate CleanTail(fs: Fs, i: int)
    requires IsFile(fs, i)
  {
    forall x: nat :: x >= fs.inodes[i].size ==> ByteAt(fs, i, x) == 0
  }

  lemma HeaderBytes(fs: Fs, i: int, size: nat, nlinks: int, j: int, x: nat)
    requires IsFile(fs, j) && 0 <= i < |fs.inodes| && fs.ibm[i]
    ensures IsFile(SetHeader(fs, i, size, nlinks), j)
    ensures ByteAt(SetHeader(fs, i, size, nlinks), j, x) == ByteAt(fs, j, x)
  {
  }

  lemma ResizedKept(fs: Fs, mid: Fs, i: int, end: nat)
    requires IsFile(fs, i) && Kept(fs, mid)
    ensures var fs' := Resized(mid, i, end);
      Ownership(fs') && NsOf(fs') == NsOf(fs) && (SizesCover(fs) ==> SizesCover(fs'))
  {
    var size := Max(mid.inodes[i].size, end);
    SetHeaderOwnership(mid, i, size, mid.inodes[i].nlinks);
    SetHeaderNs(mid, i, size, mid.inodes[i].nlinks);
    assert NsOf(mid).links[i := mid.inodes[i].nlinks] == NsOf(mid).links;
    var fs' := Resized(mid, i, end);
    forall d, k | 0 <= d < |fs'.ibm| && 0 <= k < SLOTS ensures DirEnt(fs', d, k) == DirEnt(mid, d, k) {
      assert NsOf(fs').ents[d][k] == NsOf(mid).ents[d][k];
    }
  }

  lemma ResizedBytes(fs: Fs, mid: Fs, i: int, off: nat, buf: seq<Byte>, j: int, x: nat)
    requires Progress(fs, mid, i, off, buf, |buf|) && IsFile(fs, j)
    ensures IsFile(Resized(mid, i, off + |buf|), j)
    ensures ByteAt(Resized(mid, i, off + |buf|), j, x) ==
      if j == i && off <= x < off + |buf| then buf[x - off] else ByteAt(fs, j, x)
  {
    assert buf[..|buf|] == buf;
    HeaderBytes(mid, i, Max(mid.inodes[i].size, off + |buf|), mid.inodes[i].nlinks, j, x);
    assert ByteAt(mid, j, x) == if j == i && off <= x < off + |buf| then buf[x - off] else ByteAt(fs, j, x);
  }

  /** A successful write has stored the whole buffer and then raised the size. */
  lemma WriteEnds(fs: Fs, i: int, off: nat, buf: seq<Byte>) returns (mid: Fs)
    requires Ownership(fs) && IsFile(fs, i) && WriteFile(fs, i, off, buf).1.Ok?
    ensures Progress(fs, mid, i, off, buf, |buf|) && IsFile(mid, i)
    ensures WriteFile(fs, i, off, buf).0 == Resized(mid, i, off + |buf|)
  {
    var r := WriteLoop(fs, i, off, buf);
    mid := r.0;
    LoopWrote(fs, i, off, buf, r.0, r.1);
  }

  /** A successful write is an overlay of the flat file when nothing was stored beyond its size; every other
      file keeps its contents, and the namespace its names. */
  lemma WriteRefinesFlat(fs: Fs, i: int, off: nat, buf: seq<Byte>)
    requires Ownership(fs) && IsFile(fs, i) && WriteFile(fs, i, off, buf).1.Ok?
    ensures var fs' := WriteFile(fs, i, off, buf).0;
      && IsFile(fs', i) && Ownership(fs') && NsOf(fs') == NsOf(fs) && (SizesCover(fs) ==> SizesCover(fs'))
      && (CleanTail(fs, i) ==> Flat(fs', i) == Overlay(Flat(fs, i), off, buf) && CleanTail(fs', i))
      && (forall j :: IsFile(fs, j) && j != i ==>
            IsFile(fs', j) && Flat(fs', j) == Flat(fs, j) && (CleanTail(fs, j) ==> CleanTail(fs', j)))
  {
    var mid := WriteEnds(fs, i, off, buf);
    StoredRefinesFlat(fs, mid, i, off, buf);
  }

  lemma StoredRefinesFlat(fs: Fs, mid: Fs, i: int, off: nat, buf: seq<Byte>)
    requires Progress(fs, mid, i, off, buf, |buf|) && IsFile(mid, i)
    ensures var fs' := Resized(mid, i, off + |buf|);
      && IsFile(fs', i) && Ownership(fs') && NsOf(fs') == NsOf(fs) && (SizesCover(fs) ==> SizesCover(fs'))
      && (CleanTail(fs, i) ==> Flat(fs', i) == Overlay(Flat(fs, i), off, buf) && CleanTail(fs', i))
      && (forall j :: IsFile(fs, j) && j != i ==>
            IsFile(fs', j) && Flat(fs', j) == Flat(fs, j) && (CleanTail(fs, j) ==> CleanTail(fs', j)))
  {
    var fs' := Resized(mid, i, off + |buf|);
    ResizedKept(fs, mid, i, off + |buf|);
    forall j, x: nat | IsFile(fs, j)
      ensures IsFile(fs', j)
      ensures ByteAt(fs', j, x) == if j == i && off <= x < off + |buf| then buf[x - off] else ByteAt(fs, j, x)
    {
      ResizedBytes(fs, mid, i, off, buf, j, x);
    }
    forall j | IsFile(fs, j) && j != i ensures Flat(fs', j) == Flat(fs, j) {
      assert SameHeader(fs.inodes[j], mid.inodes[j]);
    }
    assert SameHeader(fs.inodes[i], mid.inodes[i]);
    if CleanTail(fs, i) {
      assert Flat(fs', i) == Overlay(Flat(fs, i), off, buf);
    }
  }

  /** What was just written reads back. */
  lemma ReadBack(fs: Fs, i: int, off: nat, buf: seq<Byte>)
    requires Ownership(fs) && IsFile(fs, i) && WriteFile(fs, i, off, buf).1.Ok?
    ensures var fs' := WriteFile(fs, i, off, buf).0; WellFormed(fs') && i < |fs'.inodes| && fs'.ibm[i]
    ensures ReadFile(WriteFile(fs, i, off, buf).0, i, off, |buf|) == Ok(buf)
  {
    var mid := WriteEnds(fs, i, off, buf);
    StoredBack(fs, mid, i, off, buf);
  }

  lemma StoredBack(fs: Fs, mid: Fs, i: int, off: nat, buf: seq<Byte>)
    requires Progress(fs, mid, i, off, buf, |buf|) && IsFile(mid, i)
    ensures IsFile(Resized(mid, i, off + |buf|), i)
    ensures ReadFile(Resized(mid, i, off + |buf|), i, off, |buf|) == Ok(buf)
  {
    var fs' := Resized(mid, i, off + |buf|);
    forall x | 0 <= x < |buf| ensures ByteAt(fs', i, off + x) == buf[x] {
      ResizedBytes(fs, mid, i, off, buf, i, off + x);
    }
    if buf != [] {
      assert BytesAt(fs', i, off, |buf|) == buf;
    }
  }

  /** A read delivers the slice of the flat file that the range covers. */
  lemma ReadIsSlice(fs: Fs, i: int, off: nat, len: nat)
    requires IsFile(fs, i)
    ensures var f := Flat(fs, i);
      ReadFile(fs, i, off, len) == Ok(if off >= |f| then [] else f[off..Min(off + len, |f|)])
  {
    var f := Flat(fs, i);
    if off < |f| {
      assert BytesAt(fs, i, off, Min(len, |f| - off)) == f[off..Min(off + len, |f|)];
    }
  }

  /** A write that stored `done` bytes and then stopped leaves the size alone, so the flat file only sees the bytes
      below it; the tail stays clean exactly when every byte it left beyond the size is zero. */
  lemma StoredTail(fs: Fs, i: int, off: nat, buf: seq<Byte>)
    requires Ownership(fs) && IsFile(fs, i) && CleanTail(fs, i)
    ensures var (mid, done) := WriteLoop(fs, i, off, buf);
      && |Flat(mid, i)| == |Flat(fs, i)|
      && (forall x :: 0 <= x < |Flat(fs, i)| ==>
            Flat(mid, i)[x] == if off <= x < off + done then buf[x - off] else Flat(fs, i)[x])
      && (CleanTail(mid, i) <==> forall x :: 0 <= x < done && off + x >= fs.inodes[i].size ==> buf[x] == 0)
  {
    var (mid, done) := WriteLoop(fs, i, off, buf);
    LoopWrote(fs, i, off, buf, mid, done);
    assert SameHeader(fs.inodes[i], mid.inodes[i]);
    forall x: nat ensures ByteAt(mid, i, x) == if off <= x < off + done then buf[x - off] else ByteAt(fs, i, x) {
      assert off <= x < off + done ==> buf[..done][x - off] == buf[x - off];
    }
    if CleanTail(mid, i) {
      forall x | 0 <= x < done && off + x >= fs.inodes[i].size ensures buf[x] == 0 {
        assert ByteAt(mid, i, off + x) == 0;
      }
    }
  }
}
