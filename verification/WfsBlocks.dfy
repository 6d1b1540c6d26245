/** The WFS image: inode table, two bitmaps and data blocks, and who owns which block. */
module WfsBlocks {
  import opened WfsNames

  const BLOCK_SIZE: nat := 512
  const D_BLOCK: nat := 6
  const IND_BLOCK: nat := 7
  const N_BLOCKS: nat := 8
  const INDIRECT: nat := 64          // BLOCK_SIZE / sizeof(off_t)
  const PER_BLOCK: nat := 16         // BLOCK_SIZE / sizeof(struct wfs_dentry)
  const POSITIONS: nat := 72         // N_BLOCKS pointers in the inode, then the indirect entries

  type Byte = bv8

  /** The 512 bytes of a data block, as the code that owns it reads them.  A zeroed block is the zero of each view. */
  datatype Block = Raw(bytes: seq<Byte>) | Ptrs(ptr: seq<nat>) | Dents(ent: seq<Dentry>)

  /** Block pointers are 0 for none, else one plus the index of the data block. */
  datatype Inode = Inode(isDir: bool, size: nat, nlinks: int, blocks: seq<nat>)

  datatype Fs = Fs(ibm: seq<bool>, inodes: seq<Inode>, dbm: seq<bool>, data: seq<Block>)

  function ZeroRaw(): (b: Block)
    ensures b.Raw? && |b.bytes| == BLOCK_SIZE && forall j :: 0 <= j < BLOCK_SIZE ==> b.bytes[j] == 0
  {
    Raw(seq(BLOCK_SIZE, _ => 0))
  }

  function ZeroPtrs(): (b: Block)
    ensures b.Ptrs? && |b.ptr| == INDIRECT && forall j :: 0 <= j < INDIRECT ==> b.ptr[j] == 0
  {
    Ptrs(seq(INDIRECT, _ => 0))
  }

  function ZeroDents(): (b: Block)
    ensures b.Dents? && |b.ent| == PER_BLOCK && forall j :: 0 <= j < PER_BLOCK ==> b.ent[j] == FREE
  {
    Dents(seq(PER_BLOCK, _ => FREE))
  }

  function NoBlocks(): (s: seq<nat>)
    ensures |s| == N_BLOCKS && forall k :: 0 <= k < N_BLOCKS ==> s[k] == 0
  {
    seq(N_BLOCKS, _ => 0)
  }

  function ZeroInode(): Inode {
    Inode(false, 0, 0, NoBlocks())
  }

  predicate WellFormed(fs: Fs) {
    && |fs.inodes| == |fs.ibm|
    && |fs.data| == |fs.dbm|
    && (forall i :: 0 <= i < |fs.inodes| ==> |fs.inodes[i].blocks| == N_BLOCKS)
    && (forall i :: 0 <= i < |fs.inodes| && !fs.ibm[i] ==> fs.inodes[i] == ZeroInode())
  }

  /** Entry `j` of the indirect block that `p` points at. */
  function EntryOf(data: seq<Block>, p: nat, j: nat): nat {
    if 0 < p <= |data| && data[p - 1].Ptrs? && j < |data[p - 1].ptr| then data[p - 1].ptr[j] else 0
  }

  /** The pointer held at position `k` of inode `i`. */
  function PtrAt(fs: Fs, i: int, k: int): nat
    requires WellFormed(fs) && 0 <= i < |fs.inodes| && 0 <= k < POSITIONS
  {
    if k < N_BLOCKS then fs.inodes[i].blocks[k] else EntryOf(fs.data, fs.inodes[i].blocks[IND_BLOCK], k - N_BLOCKS)
  }

  predicate Owns(fs: Fs, i: int, k: int, p: int)
    requires WellFormed(fs)
  {
    0 <= i < |fs.inodes| && fs.ibm[i] && 0 <= k < POSITIONS && PtrAt(fs, i, k) == p && p != 0
  }

  /** The view under which the block at position `k` is used. */
  predicate Fits(b: Block, isDir: bool, k: int) {
    if k < D_BLOCK && isDir then b.Dents? && |b.ent| == PER_BLOCK
    else if k == IND_BLOCK then !isDir && b.Ptrs? && |b.ptr| == INDIRECT
    else !isDir && k != D_BLOCK && b.Raw? && |b.bytes| == BLOCK_SIZE
  }

  predicate PtrOk(fs: Fs, i: int, k: int)
    requires WellFormed(fs) && 0 <= i < |fs.inodes| && 0 <= k < POSITIONS
  {
    var p := PtrAt(fs, i, k);
    p != 0 ==> p <= |fs.data| && fs.dbm[p - 1] && Fits(fs.data[p - 1], fs.inodes[i].isDir, k)
  }

  ghost predicate PtrsOk(fs: Fs)
    requires WellFormed(fs)
  {
    forall i, k :: 0 <= i < |fs.inodes| && fs.ibm[i] && 0 <= k < POSITIONS ==> PtrOk(fs, i, k)
  }

  ghost predicate OwnedOnce(fs: Fs)
    requires WellFormed(fs)
  {
    forall i, k, i', k', p :: Owns(fs, i, k, p) && Owns(fs, i', k', p) ==> i == i' && k == k'
  }

  ghost predicate Owned(fs: Fs, p: int)
    requires WellFormed(fs)
  {
    exists i, k :: Owns(fs, i, k, p)
  }

  ghost predicate NoLeaks(fs: Fs)
    requires WellFormed(fs)
  {
    forall b :: 0 <= b < |fs.dbm| && fs.dbm[b] ==> Owned(fs, b + 1)
  }

  /** A data bit is set exactly when one pointer of one allocated inode leads to the block. */
  ghost predicate Ownership(fs: Fs) {
    WellFormed(fs) && PtrsOk(fs) && OwnedOnce(fs) && NoLeaks(fs)
  }

  // ---- Directory entries seen through the blocks ----

  function EntAt(data: seq<Block>, p: nat, j: nat): Dentry {
    if 0 < p <= |data| && data[p - 1].Dents? && j < |data[p - 1].ent| then data[p - 1].ent[j] else FREE
  }

  function DirEnt(fs: Fs, d: int, k: nat): Dentry
    requires WellFormed(fs) && 0 <= d < |fs.inodes| && k < SLOTS
  {
    if fs.ibm[d] && fs.inodes[d].isDir then EntAt(fs.data, fs.inodes[d].blocks[k / PER_BLOCK], k % PER_BLOCK) else FREE
  }

  function DirEnts(fs: Fs, d: int): (es: seq<Dentry>)
    requires WellFormed(fs) && 0 <= d < |fs.inodes|
    ensures |es| == SLOTS && forall k :: 0 <= k < SLOTS ==> es[k] == DirEnt(fs, d, k)
  {
    seq(SLOTS, k requires 0 <= k < SLOTS => DirEnt(fs, d, k))
  }

  function NsOf(fs: Fs): (ns: Ns)
    requires WellFormed(fs)
    ensures ns.used == fs.ibm && |ns.dir| == |fs.ibm| && |ns.links| == |fs.ibm| && |ns.ents| == |fs.ibm|
    ensures forall i :: 0 <= i < |fs.ibm| ==> ns.dir[i] == (fs.ibm[i] && fs.inodes[i].isDir)
    ensures forall i :: 0 <= i < |fs.ibm| ==> ns.links[i] == if fs.ibm[i] then fs.inodes[i].nlinks else 0
    ensures forall i :: 0 <= i < |fs.ibm| ==> ns.ents[i] == DirEnts(fs, i)
  {
    Ns(fs.ibm,
       seq(|fs.ibm|, i requires 0 <= i < |fs.ibm| => fs.ibm[i] && fs.inodes[i].isDir),
       seq(|fs.ibm|, i requires 0 <= i < |fs.ibm| => if fs.ibm[i] then fs.inodes[i].nlinks else 0),
       seq(|fs.ibm|, i requires 0 <= i < |fs.ibm| => DirEnts(fs, i)))
  }

  /** A directory's size is whole entries and covers its live ones, so scans by size miss nothing. */
  ghost predicate SizesCover(fs: Fs)
    requires WellFormed(fs)
  {
    forall d, k :: 0 <= d < |fs.ibm| && fs.ibm[d] && fs.inodes[d].isDir && 0 <= k < SLOTS && Live(DirEnt(fs, d, k)) ==>
      k < fs.inodes[d].size / 32
  }

  ghost predicate FsInv(fs: Fs) {
    Ownership(fs) && Tree(NsOf(fs)) && SizesCover(fs)
  }

  // ---- Attaching a fresh block at an empty position ----

  /** `fs'` is `fs` with free block `b` taken and recorded at position `k` of inode `i`. */
  ghost predicate Attached(fs: Fs, fs': Fs, i: int, k: int, b: int) {
    && WellFormed(fs) && WellFormed(fs')
    && fs'.ibm == fs.ibm && |fs'.dbm| == |fs.dbm|
    && 0 <= b < |fs.dbm| && !fs.dbm[b] && fs'.dbm == fs.dbm[b := true]
    && 0 <= i < |fs.inodes| && fs.ibm[i] && 0 <= k < POSITIONS && PtrAt(fs, i, k) == 0 && PtrAt(fs', i, k) == b + 1
    && (forall j :: 0 <= j < |fs.inodes| ==> fs'.inodes[j].isDir == fs.inodes[j].isDir)
    && (forall j, l :: 0 <= j < |fs.inodes| && fs.ibm[j] && 0 <= l < POSITIONS && !(j == i && l == k) ==>
          PtrAt(fs', j, l) == PtrAt(fs, j, l))
    && Fits(fs'.data[b], fs.inodes[i].isDir, k)
    && (forall j, l ::
        0 <= j < |fs.inodes| && fs.ibm[j] && 0 <= l < POSITIONS && PtrOk(fs, j, l) && PtrAt(fs, j, l) != 0 ==>
          Fits(fs'.data[PtrAt(fs, j, l) - 1], fs.inodes[j].isDir, l))
  }

  lemma AttachOwnership(fs: Fs, fs': Fs, i: int, k: int, b: int)
    requires Ownership(fs) && Attached(fs, fs', i, k, b)
    ensures Ownership(fs')
  {
    forall j, l | 0 <= j < |fs.inodes| && fs.ibm[j] && 0 <= l < POSITIONS ensures PtrOk(fs', j, l) {
      assert PtrOk(fs, j, l);
    }
    forall j, l, p | Owns(fs', j, l, p) ensures (p == b + 1 && j == i && l == k) || (p != b + 1 && Owns(fs, j, l, p)) {
      assert PtrOk(fs, j, l);
    }
    forall c | 0 <= c < |fs'.dbm| && fs'.dbm[c] ensures Owned(fs', c + 1) {
      if c == b {
        assert Owns(fs', i, k, b + 1);
      } else {
        assert Owned(fs, c + 1);
        var j, l :| Owns(fs, j, l, c + 1);
        assert Owns(fs', j, l, c + 1);
      }
    }
  }

  // ---- Allocation ----

  /** The first clear bit at or after `k`, or the length. */
  function FirstFree(bm: seq<bool>, k: nat): (r: nat)
    requires k <= |bm|
    ensures k <= r <= |bm|
    ensures r < |bm| ==> !bm[r]
    ensures forall j :: k <= j < r ==> bm[j]
    decreases |bm| - k
  {
    if k == |bm| || !bm[k] then k else FirstFree(bm, k + 1)
  }

  predicate SameHeader(a: Inode, b: Inode) {
    b.isDir == a.isDir && b.size == a.size && b.nlinks == a.nlinks
  }

  /** Same inodes in use, with the same kinds, sizes and link counts. */
  predicate SameInodes(fs: Fs, fs': Fs) {
    && fs'.ibm == fs.ibm && |fs'.inodes| == |fs.inodes| && |fs'.data| == |fs.data|
    && forall j :: 0 <= j < |fs.inodes| ==> SameHeader(fs.inodes[j], fs'.inodes[j])
  }

  function SetPtr(fs: Fs, i: int, k: int, p: nat): (fs': Fs)
    requires WellFormed(fs) && 0 <= i < |fs.inodes| && fs.ibm[i] && 0 <= k < POSITIONS
    ensures WellFormed(fs') && SameInodes(fs, fs')
  {
    if k < N_BLOCKS then
      fs.(inodes := fs.inodes[i := fs.inodes[i].(blocks := fs.inodes[i].blocks[k := p])])
    else
      var q := fs.inodes[i].blocks[IND_BLOCK];
      if 0 < q <= |fs.data| && fs.data[q - 1].Ptrs? && k - N_BLOCKS < |fs.data[q - 1].ptr| then
        fs.(data := fs.data[q - 1 := Ptrs(fs.data[q - 1].ptr[k - N_BLOCKS := p])])
      else fs
  }

  /** The zeroed block a position is filled with. */
  function ZeroFor(isDir: bool, k: int): Block {
    if k == IND_BLOCK then ZeroPtrs() else if isDir then ZeroDents() else ZeroRaw()
  }

  predicate CanAttach(fs: Fs, i: int, k: int) {
    && WellFormed(fs) && 0 <= i < |fs.inodes| && fs.ibm[i] && 0 <= k < POSITIONS
    && PtrAt(fs, i, k) == 0
    && k != D_BLOCK && (fs.inodes[i].isDir ==> k < D_BLOCK)
    && (k >= N_BLOCKS ==> fs.inodes[i].blocks[IND_BLOCK] != 0)
    && FirstFree(fs.dbm, 0) < |fs.dbm|
  }

  /** allocate_data_block followed by recording the new block at position `k`. */
  function Attach(fs: Fs, i: int, k: int): (fs': Fs)
    requires CanAttach(fs, i, k)
    ensures WellFormed(fs') && SameInodes(fs, fs')
  {
    var b := FirstFree(fs.dbm, 0);
    SetPtr(fs.(dbm := fs.dbm[b := true], data := fs.data[b := ZeroFor(fs.inodes[i].isDir, k)]), i, k, b + 1)
  }

  lemma AttachOther(fs: Fs, i: int, k: int, j: int, l: int)
    requires Ownership(fs) && CanAttach(fs, i, k)
    requires 0 <= j < |fs.inodes| && fs.ibm[j] && 0 <= l < POSITIONS
    ensures var fs' := Attach(fs, i, k);
      && WellFormed(fs') && |fs'.data| == |fs.data|
      && (!(j == i && l == k) ==> PtrAt(fs', j, l) == PtrAt(fs, j, l))
      && (PtrAt(fs, j, l) != 0 ==> PtrOk(fs, j, l) && Fits(fs'.data[PtrAt(fs, j, l) - 1], fs.inodes[j].isDir, l))
  {
    assert PtrOk(fs, i, IND_BLOCK) && PtrOk(fs, j, l) && PtrOk(fs, j, IND_BLOCK);
    SoleOwner(fs, i, IND_BLOCK, j, IND_BLOCK);
  }

  lemma AttachPointers(fs: Fs, i: int, k: int)
    requires Ownership(fs) && CanAttach(fs, i, k)
    ensures Attached(fs, Attach(fs, i, k), i, k, FirstFree(fs.dbm, 0))
  {
    var fs' := Attach(fs, i, k);
    assert PtrOk(fs, i, IND_BLOCK);
    forall j, l | 0 <= j < |fs.inodes| && fs.ibm[j] && 0 <= l < POSITIONS
      ensures !(j == i && l == k) ==> PtrAt(fs', j, l) == PtrAt(fs, j, l)
      ensures PtrAt(fs, j, l) != 0 ==> PtrOk(fs, j, l) && Fits(fs'.data[PtrAt(fs, j, l) - 1], fs.inodes[j].isDir, l)
    {
      AttachOther(fs, i, k, j, l);
    }
  }

  lemma SoleOwner(fs: Fs, i: int, k: int, j: int, l: int)
    requires WellFormed(fs) && OwnedOnce(fs)
    requires 0 <= i < |fs.inodes| && fs.ibm[i] && 0 <= k < POSITIONS
    requires 0 <= j < |fs.inodes| && fs.ibm[j] && 0 <= l < POSITIONS
    ensures PtrAt(fs, i, k) == PtrAt(fs, j, l) && PtrAt(fs, i, k) != 0 ==> i == j && k == l
  {
    var p := PtrAt(fs, i, k);
    assert p != 0 ==> Owns(fs, i, k, p);
    assert p != 0 && PtrAt(fs, j, l) == p ==> Owns(fs, j, l, p);
  }

  /** The namespace is a function of the bits, the inode headers and the directory entries. */
  lemma NsAgree(fs: Fs, fs': Fs)
    requires WellFormed(fs) && WellFormed(fs') && fs'.ibm == fs.ibm
    requires forall i :: 0 <= i < |fs.ibm| ==>
      fs'.inodes[i].isDir == fs.inodes[i].isDir && fs'.inodes[i].nlinks == fs.inodes[i].nlinks
    requires forall d, k :: 0 <= d < |fs.ibm| && 0 <= k < SLOTS ==> DirEnt(fs', d, k) == DirEnt(fs, d, k)
    ensures NsOf(fs') == NsOf(fs)
  {
    forall d | 0 <= d < |fs.ibm| ensures DirEnts(fs', d) == DirEnts(fs, d) {
    }
  }

  lemma AttachKeepsNs(fs: Fs, i: int, k: int)
    requires Ownership(fs) && CanAttach(fs, i, k)
    ensures WellFormed(Attach(fs, i, k)) && NsOf(Attach(fs, i, k)) == NsOf(fs)
    ensures SizesCover(fs) ==> SizesCover(Attach(fs, i, k))
  {
    var b := FirstFree(fs.dbm, 0);
    var fs' := Attach(fs, i, k);
    AttachPointers(fs, i, k);
    forall d, l | 0 <= d < |fs.ibm| && 0 <= l < SLOTS ensures DirEnt(fs', d, l) == DirEnt(fs, d, l) {
      if fs.ibm[d] && fs.inodes[d].isDir {
        assert PtrOk(fs, d, l / PER_BLOCK) && PtrOk(fs, i, IND_BLOCK);
      }
    }
    NsAgree(fs, fs');
  }

  // ---- Changing contents in place ----

  /** Same bits, same pointers, same views. */
  ghost predicate SamePointers(fs: Fs, fs': Fs) {
    && WellFormed(fs) && WellFormed(fs')
    && fs'.ibm == fs.ibm && fs'.dbm == fs.dbm
    && (forall j :: 0 <= j < |fs.inodes| ==> fs'.inodes[j].isDir == fs.inodes[j].isDir)
    && (forall j, l :: 0 <= j < |fs.inodes| && fs.ibm[j] && 0 <= l < POSITIONS ==>
          PtrAt(fs', j, l) == PtrAt(fs, j, l) && (PtrOk(fs, j, l) ==> PtrOk(fs', j, l)))
  }

  lemma ContentOwnership(fs: Fs, fs': Fs)
    requires Ownership(fs) && SamePointers(fs, fs')
    ensures Ownership(fs')
  {
    forall i, k, p ensures Owns(fs', i, k, p) == Owns(fs, i, k, p) {
    }
    forall c | 0 <= c < |fs'.dbm| && fs'.dbm[c] ensures Owned(fs', c + 1) {
      assert Owned(fs, c + 1);
      var j, l :| Owns(fs, j, l, c + 1);
      assert Owns(fs', j, l, c + 1);
    }
    forall j, l | 0 <= j < |fs.inodes| && fs.ibm[j] && 0 <= l < POSITIONS ensures PtrOk(fs', j, l) {
      assert PtrOk(fs, j, l);
    }
  }

  /** Replacing a block by one of the same view keeps every pointer, unless it is an indirect block. */
  lemma ReplaceBlock(fs: Fs, b: int, blk: Block)
    requires WellFormed(fs) && 0 <= b < |fs.data|
    requires (fs.data[b].Raw? && blk.Raw? && |blk.bytes| == |fs.data[b].bytes|) ||
             (fs.data[b].Dents? && blk.Dents? && |blk.ent| == |fs.data[b].ent|)
    ensures SamePointers(fs, fs.(data := fs.data[b := blk]))
  {
  }

  /** Writing slot `k` of directory `d`; its block must be present. */
  function SetDent(fs: Fs, d: int, k: nat, e: Dentry): (fs': Fs)
    requires WellFormed(fs) && 0 <= d < |fs.inodes| && k < SLOTS
    ensures WellFormed(fs') && fs'.inodes == fs.inodes && fs'.ibm == fs.ibm
  {
    var p := fs.inodes[d].blocks[k / PER_BLOCK];
    if 0 < p <= |fs.data| && fs.data[p - 1].Dents? && k % PER_BLOCK < |fs.data[p - 1].ent| then
      fs.(data := fs.data[p - 1 := Dents(fs.data[p - 1].ent[k % PER_BLOCK := e])])
    else fs
  }

  predicate HasSlot(fs: Fs, d: int, k: int) {
    && WellFormed(fs) && 0 <= d < |fs.inodes| && fs.ibm[d] && fs.inodes[d].isDir
    && 0 <= k < SLOTS && fs.inodes[d].blocks[k / PER_BLOCK] != 0
  }

  lemma SetDentOwnership(fs: Fs, d: int, k: int, e: Dentry)
    requires Ownership(fs) && HasSlot(fs, d, k)
    ensures Ownership(SetDent(fs, d, k, e))
  {
    assert PtrOk(fs, d, k / PER_BLOCK);
    var p := fs.inodes[d].blocks[k / PER_BLOCK];
    ReplaceBlock(fs, p - 1, Dents(fs.data[p - 1].ent[k % PER_BLOCK := e]));
    ContentOwnership(fs, SetDent(fs, d, k, e));
  }

  lemma SetDentEntry(fs: Fs, d: int, k: int, e: Dentry, d2: int, k2: int)
    requires Ownership(fs) && HasSlot(fs, d, k) && 0 <= d2 < |fs.inodes| && 0 <= k2 < SLOTS
    ensures WellFormed(SetDent(fs, d, k, e))
    ensures DirEnt(SetDent(fs, d, k, e), d2, k2) == if d2 == d && k2 == k then e else DirEnt(fs, d2, k2)
  {
    assert PtrOk(fs, d, k / PER_BLOCK);
    if fs.ibm[d2] && fs.inodes[d2].isDir {
      assert PtrOk(fs, d2, k2 / PER_BLOCK);
      SoleOwner(fs, d, k / PER_BLOCK, d2, k2 / PER_BLOCK);
    }
  }

  lemma SetDentNs(fs: Fs, d: int, k: int, e: Dentry)
    requires Ownership(fs) && HasSlot(fs, d, k)
    ensures WellFormed(SetDent(fs, d, k, e))
    ensures NsOf(SetDent(fs, d, k, e)) == NsOf(fs).(ents := NsOf(fs).ents[d := NsOf(fs).ents[d][k := e]])
  {
    var fs' := SetDent(fs, d, k, e);
    SetDentOwnership(fs, d, k, e);
    forall d2 | 0 <= d2 < |fs.inodes|
      ensures DirEnts(fs', d2) == if d2 == d then DirEnts(fs, d)[k := e] else DirEnts(fs, d2)
    {
      forall k2 | 0 <= k2 < SLOTS
        ensures DirEnt(fs', d2, k2) == if d2 == d && k2 == k then e else DirEnt(fs, d2, k2)
      {
        SetDentEntry(fs, d, k, e, d2, k2);
      }
    }
  }

  // ---- Inodes coming and going ----

  function NewInode(fs: Fs, i: int, isDir: bool): (fs': Fs)
    requires WellFormed(fs) && 0 <= i < |fs.inodes|
    ensures WellFormed(fs')
  {
    fs.(ibm := fs.ibm[i := true], inodes := fs.inodes[i := Inode(isDir, 0, if isDir then 2 else 1, NoBlocks())])
  }

  lemma NewInodeOwnership(fs: Fs, i: int, isDir: bool)
    requires Ownership(fs) && 0 <= i < |fs.inodes| && !fs.ibm[i]
    ensures Ownership(NewInode(fs, i, isDir))
  {
    var fs' := NewInode(fs, i, isDir);
    forall j, l | 0 <= j < |fs.inodes| && fs'.ibm[j] && 0 <= l < POSITIONS
      ensures PtrAt(fs', j, l) == if j == i then 0 else PtrAt(fs, j, l)
      ensures PtrOk(fs', j, l)
    {
      if j != i { assert PtrOk(fs, j, l); }
    }
    forall j, l, p ensures Owns(fs', j, l, p) == Owns(fs, j, l, p) {
    }
    forall c | 0 <= c < |fs'.dbm| && fs'.dbm[c] ensures Owned(fs', c + 1) {
      assert Owned(fs, c + 1);
      var j, l :| Owns(fs, j, l, c + 1);
      assert Owns(fs', j, l, c + 1);
    }
  }

  /** Inode `i` points at `p` somewhere. */
  predicate HasPtr(fs: Fs, i: int, p: int)
    requires WellFormed(fs) && 0 <= i < |fs.inodes|
  {
    exists k :: 0 <= k < POSITIONS && PtrAt(fs, i, k) == p
  }

  /** Inode `i` and every block it owns are returned. */
  function Release(fs: Fs, i: int): (fs': Fs)
    requires WellFormed(fs) && 0 <= i < |fs.inodes|
  {
    Fs(fs.ibm[i := false],
       fs.inodes[i := ZeroInode()],
       seq(|fs.dbm|, b requires 0 <= b < |fs.dbm| => fs.dbm[b] && !HasPtr(fs, i, b + 1)),
       seq(|fs.data|, b requires 0 <= b < |fs.data| => if HasPtr(fs, i, b + 1) then ZeroRaw() else fs.data[b]))
  }

  lemma ReleaseOther(fs: Fs, i: int, j: int, l: int)
    requires Ownership(fs) && 0 <= i < |fs.inodes| && fs.ibm[i]
    requires 0 <= j < |fs.inodes| && j != i && fs.ibm[j] && 0 <= l < POSITIONS
    ensures var fs' := Release(fs, i);
      WellFormed(fs') && PtrAt(fs', j, l) == PtrAt(fs, j, l) && PtrOk(fs', j, l)
  {
    var fs' := Release(fs, i);
    assert PtrOk(fs, j, l) && PtrOk(fs, j, IND_BLOCK);
    forall k | 0 <= k < POSITIONS
      ensures PtrAt(fs, j, l) != 0 ==> PtrAt(fs, i, k) != PtrAt(fs, j, l)
      ensures PtrAt(fs, j, IND_BLOCK) != 0 ==> PtrAt(fs, i, k) != PtrAt(fs, j, IND_BLOCK)
    {
      SoleOwner(fs, i, k, j, l);
      SoleOwner(fs, i, k, j, IND_BLOCK);
    }
  }

  lemma ReleaseOwnership(fs: Fs, i: int)
    requires Ownership(fs) && 0 <= i < |fs.inodes| && fs.ibm[i]
    ensures Ownership(Release(fs, i))
  {
    var fs' := Release(fs, i);
    forall j, l | 0 <= j < |fs.inodes| && fs'.ibm[j] && 0 <= l < POSITIONS
      ensures PtrOk(fs', j, l) && PtrAt(fs', j, l) == PtrAt(fs, j, l)
    {
      ReleaseOther(fs, i, j, l);
    }
    forall j, l, p | Owns(fs', j, l, p) ensures Owns(fs, j, l, p) {
    }
    forall c | 0 <= c < |fs'.dbm| && fs'.dbm[c] ensures Owned(fs', c + 1) {
      assert Owned(fs, c + 1);
      var j, l :| Owns(fs, j, l, c + 1);
      assert j != i by { assert !HasPtr(fs, i, c + 1); }
      assert Owns(fs', j, l, c + 1);
    }
  }

  lemma ReleaseEntry(fs: Fs, i: int, d: int, k: int)
    requires Ownership(fs) && 0 <= i < |fs.inodes| && fs.ibm[i]
    requires 0 <= d < |fs.inodes| && 0 <= k < SLOTS
    ensures WellFormed(Release(fs, i))
    ensures DirEnt(Release(fs, i), d, k) == if d == i then FREE else DirEnt(fs, d, k)
  {
    if d != i && fs.ibm[d] {
      ReleaseOther(fs, i, d, k / PER_BLOCK);
      var p := PtrAt(fs, d, k / PER_BLOCK);
      if p != 0 {
        assert PtrOk(fs, d, k / PER_BLOCK);
        forall l | 0 <= l < POSITIONS ensures PtrAt(fs, i, l) != p { SoleOwner(fs, i, l, d, k / PER_BLOCK); }
      }
    }
  }
}
