/** The image mkfs lays out, what statfs counts in it, and what holds from a fresh image on. */
module WfsImage {
  import opened Helpers
  import opened WfsNames
  import opened WfsBlocks
  import opened WfsOps
  import opened WfsFiles
  import opened WfsTheorems

  // ---- Layout ----

  const SB_SIZE: nat := 48 // sizeof(struct wfs_sb)

  datatype Superblock = Superblock(inodes: nat, blocks: nat, ibitmap: nat, dbitmap: nat, itable: nat, dblocks: nat)

  /** roundup: the least multiple of `factor` that is not below `num` */
  function RoundUp(num: nat, factor: nat): (r: nat)
    requires factor > 0
    ensures r % factor == 0 && num <= r < num + factor
  {
    if num % factor == 0 then num else
      Multiple(num, factor);
      num + (factor - num % factor)
  }

  lemma Multiple(num: nat, factor: nat)
    requires factor > 0
    ensures (num + (factor - num % factor)) % factor == 0
  {
    var q := num / factor;
    assert num + (factor - num % factor) == factor * (q + 1);
    MultipleOf(factor, q + 1);
  }

  lemma MultipleOf(factor: nat, q: nat)
    requires factor > 0
    ensures (factor * q) % factor == 0
  {
    var m, r := factor * q / factor, factor * q % factor;
    assert factor * q == factor * m + r;
    Scaled(factor, q - m);
    assert factor * (q - m) == r;
  }

  /** setup_sb without the fit test */
  function SetupSb(inodes: nat, blocks: nat): Superblock {
    var i, b := RoundUp(inodes, 32), RoundUp(blocks, 32);
    var ibitmap := SB_SIZE;
    var dbitmap := ibitmap + i / 8;
    var itable := dbitmap + b / 8;
    Superblock(i, b, ibitmap, dbitmap, itable, itable + i * BLOCK_SIZE)
  }

  /** The fit test of setup_sb. */
  predicate FitsIn(sb: Superblock, size: nat) {
    sb.itable + sb.inodes * BLOCK_SIZE + sb.blocks * BLOCK_SIZE < size
  }

  /** The bytes of each object on disk. */
  datatype Place = Header | InodeBit(n: nat) | DataBit(n: nat) | InodeAt(n: nat) | BlockAt(n: nat)

  predicate Exists(sb: Superblock, o: Place) {
    match o
    case Header => true
    case InodeBit(n) => n < sb.inodes
    case DataBit(n) => n < sb.blocks
    case InodeAt(n) => n < sb.inodes
    case BlockAt(n) => n < sb.blocks
  }

  /** First bit of the object; bit 8 * x is the first of byte x. */
  function Start(sb: Superblock, o: Place): nat {
    match o
    case Header => 0
    case InodeBit(n) => 8 * sb.ibitmap + n
    case DataBit(n) => 8 * sb.dbitmap + n
    case InodeAt(n) => 8 * (sb.itable + n * BLOCK_SIZE)
    case BlockAt(n) => 8 * (sb.dblocks + n * BLOCK_SIZE)
  }

  function Bits(o: Place): nat {
    match o
    case Header => 8 * SB_SIZE
    case InodeBit(_) => 1
    case DataBit(_) => 1
    case InodeAt(_) => 8 * BLOCK_SIZE
    case BlockAt(_) => 8 * BLOCK_SIZE
  }

  /** Objects in the order in which they lie on disk. */
  predicate Before(o: Place, o': Place) {
    match (o, o')
    case (Header, Header) => false
    case (Header, _) => true
    case (InodeBit(n), InodeBit(m)) => n < m
    case (InodeBit(_), o') => !o'.Header?
    case (DataBit(n), DataBit(m)) => n < m
    case (DataBit(_), o') => o'.InodeAt? || o'.BlockAt?
    case (InodeAt(n), InodeAt(m)) => n < m
    case (InodeAt(_), o') => o'.BlockAt?
    case (BlockAt(n), BlockAt(m)) => n < m
    case (BlockAt(_), _) => false
  }

  /** The regions follow one another, counted in bits. */
  predicate LaidOut(sb: Superblock) {
    && sb.ibitmap == SB_SIZE
    && 8 * sb.dbitmap == 8 * sb.ibitmap + sb.inodes
    && 8 * sb.itable == 8 * sb.dbitmap + sb.blocks
    && sb.dblocks == sb.itable + sb.inodes * BLOCK_SIZE
  }

  lemma Eighths(n: nat)
    requires n % 32 == 0
    ensures 8 * (n / 8) == n
  {
  }

  lemma SetupLaidOut(inodes: nat, blocks: nat)
    ensures LaidOut(SetupSb(inodes, blocks))
  {
    Eighths(RoundUp(inodes, 32));
    Eighths(RoundUp(blocks, 32));
  }

  lemma BeforeIsBelow(sb: Superblock, o: Place, o': Place)
    requires LaidOut(sb) && Exists(sb, o) && Exists(sb, o') && Before(o, o')
    ensures Start(sb, o) + Bits(o) <= Start(sb, o')
  {
  }

  lemma Inside(sb: Superblock, size: nat, o: Place)
    requires LaidOut(sb) && FitsIn(sb, size) && Exists(sb, o)
    ensures Start(sb, o) + Bits(o) <= 8 * size
  {
  }

  /** Different objects occupy different bits, all inside an image that passed the fit test. */
  lemma LayoutDisjoint(inodes: nat, blocks: nat, size: nat, o: Place, o': Place)
    requires var sb := SetupSb(inodes, blocks); FitsIn(sb, size) && Exists(sb, o) && Exists(sb, o') && o != o'
    ensures var sb := SetupSb(inodes, blocks);
      && (Start(sb, o) + Bits(o) <= Start(sb, o') || Start(sb, o') + Bits(o') <= Start(sb, o))
      && Start(sb, o) + Bits(o) <= 8 * size
  {
    var sb := SetupSb(inodes, blocks);
    SetupLaidOut(inodes, blocks);
    if Before(o, o') { BeforeIsBelow(sb, o, o'); } else { BeforeIsBelow(sb, o', o); }
    Inside(sb, size, o);
  }

  /** The offset kept in an inode for block `n`, and the index free_block computes back from it. */
  function OffsetOf(sb: Superblock, n: nat): nat { sb.dblocks + n * BLOCK_SIZE }

  function IndexOf(sb: Superblock, off: int): Option<nat> {
    if off < sb.dblocks || (off - sb.dblocks) % BLOCK_SIZE != 0 ||
      (off - sb.dblocks) / BLOCK_SIZE >= sb.blocks then None
    else Some((off - sb.dblocks) / BLOCK_SIZE)
  }

  /** free_block accepts exactly the offsets that allocate_data_block hands out, and 0 is not one of them. */
  lemma OffsetRoundTrip(inodes: nat, blocks: nat, off: int, n: nat)
    ensures var sb := SetupSb(inodes, blocks);
      && (IndexOf(sb, off) == Some(n) <==> n < sb.blocks && off == OffsetOf(sb, n))
      && IndexOf(sb, 0) == None
  {
  }

  // ---- A fresh image ----

  /** wfs_mkfs on a zeroed file: a root directory with one link and nothing else. */
  function Formatted(inodes: nat, blocks: nat): (fs: Fs)
    requires inodes > 0
    ensures WellFormed(fs)
  {
    var root := Inode(true, 0, 1, NoBlocks());
    var used := seq(RoundUp(inodes, 32), (i: nat) => i == 0);
    var table := seq(RoundUp(inodes, 32), (i: nat) => if i == 0 then root else ZeroInode());
    assert forall i :: 0 <= i < |table| ==> table[i] == (if i == 0 then root else ZeroInode()) && used[i] == (i == 0);
    Fs(used, table, seq(RoundUp(blocks, 32), _ => false), seq(RoundUp(blocks, 32), _ => ZeroRaw()))
  }

  lemma FormattedHealthy(inodes: nat, blocks: nat)
    requires inodes > 0
    ensures Healthy(Formatted(inodes, blocks)) && forall j :: !IsFile(Formatted(inodes, blocks), j)
  {
    var fs := Formatted(inodes, blocks);
    var ns := NsOf(fs);
    assert forall d, k :: 0 <= d < |fs.inodes| && 0 <= k < POSITIONS ==> PtrAt(fs, d, k) == 0;
    assert forall d, k :: 0 <= d < |fs.inodes| && 0 <= k < SLOTS ==> DirEnt(fs, d, k) == FREE;
    assert forall d :: 0 <= d < |ns.used| ==> Blank(ns.ents[d]);
    SubdirsBlank(ns.dir, ns.ents[0], SLOTS);
    assert Resolve(ns, []) == Some(0);
    assert Reachable(ns, 0);
  }

  // ---- statfs ----

  /** The bits below `n` that have value `v`. */
  function BitsBelow(bm: seq<bool>, n: nat, v: bool): set<int>
    requires n <= |bm|
  {
    set b | 0 <= b < n && bm[b] == v
  }

  function ClearBits(bm: seq<bool>): set<int> { BitsBelow(bm, |bm|, false) }

  function SetBits(bm: seq<bool>): set<int> { BitsBelow(bm, |bm|, true) }

  lemma OneMoreBit(bm: seq<bool>, n: nat, v: bool)
    requires n < |bm|
    ensures |BitsBelow(bm, n + 1, v)| == |BitsBelow(bm, n, v)| + if bm[n] == v then 1 else 0
  {
    assert BitsBelow(bm, n + 1, v) == BitsBelow(bm, n, v) + if bm[n] == v then {n} else {};
  }

  /** The two counting loops of wfs_statfs. */
  method CountFree(bm: seq<bool>) returns (free: nat)
    ensures free == |ClearBits(bm)|
  {
    free := 0;
    var i := 0;
    while i < |bm|
      invariant 0 <= i <= |bm| && free == |BitsBelow(bm, i, false)|
    {
      OneMoreBit(bm, i, false);
      if !bm[i] { free := free + 1; }
      i := i + 1;
    }
  }

  /** Position `o.1` of inode `o.0` leads to block `b`. */
  ghost predicate Leads(fs: Fs, o: (int, int), b: int)
    requires WellFormed(fs)
  {
    Owns(fs, o.0, o.1, b + 1)
  }

  ghost predicate LedTo(fs: Fs, ptrs: set<(int, int)>, b: int)
    requires WellFormed(fs)
  {
    exists o :: o in ptrs && Leads(fs, o, b)
  }

  ghost predicate LeadsInto(fs: Fs, o: (int, int), bs: set<int>)
    requires WellFormed(fs)
  {
    exists b :: b in bs && Leads(fs, o, b)
  }

  /** The (inode, position) pairs that hold a block pointer. */
  ghost function Pointers(fs: Fs): set<(int, int)>
    requires WellFormed(fs)
  {
    set i, k | 0 <= i < |fs.inodes| && 0 <= k < POSITIONS && fs.ibm[i] && PtrAt(fs, i, k) != 0 :: (i, k)
  }

  /** The free count that statfs reports is the number of blocks less the number of pointers held by inodes. */
  lemma FreeIsTheRest(fs: Fs)
    requires Ownership(fs)
    ensures |ClearBits(fs.dbm)| == |fs.dbm| - |Pointers(fs)|
  {
    BitsSplit(fs.dbm, |fs.dbm|);
    var taken, ptrs := SetBits(fs.dbm), Pointers(fs);
    forall b | b in taken ensures LedTo(fs, ptrs, b) {
      assert Owned(fs, b + 1);
      var i, k :| Owns(fs, i, k, b + 1);
      assert (i, k) in ptrs && Leads(fs, (i, k), b);
    }
    forall o | o in ptrs ensures LeadsInto(fs, o, taken) {
      assert PtrOk(fs, o.0, o.1);
      assert Leads(fs, o, PtrAt(fs, o.0, o.1) - 1);
    }
    PairUp(fs, taken, ptrs);
  }

  lemma {:induction false} BitsSplit(bm: seq<bool>, n: nat)
    requires n <= |bm|
    ensures |BitsBelow(bm, n, true)| + |BitsBelow(bm, n, false)| == n
  {
    if n > 0 {
      BitsSplit(bm, n - 1);
      OneMoreBit(bm, n - 1, true);
      OneMoreBit(bm, n - 1, false);
    }
  }

  /** Blocks and the pointers that lead to them pair up. */
  lemma {:induction false} PairUp(fs: Fs, bs: set<int>, ptrs: set<(int, int)>)
    requires WellFormed(fs) && OwnedOnce(fs)
    requires forall b :: b in bs ==> LedTo(fs, ptrs, b)
    requires forall o :: o in ptrs ==> LeadsInto(fs, o, bs)
    ensures |bs| == |ptrs|
    decreases |bs|
  {
    if bs != {} {
      var b := Pick(bs);
      assert LedTo(fs, ptrs, b);
      var o :| o in ptrs && Leads(fs, o, b);
      forall c | c in bs - {b} ensures LedTo(fs, ptrs - {o}, c) {
        var o' :| o' in ptrs && Leads(fs, o', c);
        assert o' in ptrs - {o};
      }
      forall o' | o' in ptrs - {o} ensures LeadsInto(fs, o', bs - {b}) {
        assert LeadsInto(fs, o', bs);
        var c :| c in bs && Leads(fs, o', c);
        SamePlace(fs, o, o', b);
        assert c in bs - {b};
      }
      PairUp(fs, bs - {b}, ptrs - {o});
    } else {
      assert forall o :: o in ptrs ==> LeadsInto(fs, o, {});
      assert ptrs == {};
    }
  }

  lemma Pick<T>(s: set<T>) returns (x: T)
    requires s != {}
    ensures x in s
  {
    x :| x in s;
  }

  lemma SamePlace(fs: Fs, o: (int, int), o': (int, int), b: int)
    requires WellFormed(fs) && OwnedOnce(fs)
    ensures Leads(fs, o, b) && Leads(fs, o', b) ==> o == o'
  {
  }
}
