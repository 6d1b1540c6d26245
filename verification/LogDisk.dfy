/** The disk of the redo log: a block array whose log region holds a header and
    copies of the logged blocks.  `Logical` is what a completed recovery makes of a disk. */
module LogDisk {

  const HEADER_WORDS: nat := 128 // BSIZE / sizeof(int)
  const MAXOPBLOCKS: nat := 10
  const LOGSIZE: nat := 30

  type Block = seq<int>
  type Disk = seq<Block>

  /** `log.start` and `log.size`: the header is block `start`, log block `i` is `start + 1 + i`. */
  datatype Geometry = Geometry(start: nat, size: nat)

  predicate InLog(g: Geometry, b: int) {
    g.start <= b < g.start + g.size
  }

  predicate IsHome(g: Geometry, d: Disk, b: int) {
    0 <= b < |d| && !InLog(g, b)
  }

  predicate Distinct(bs: seq<int>) {
    forall i, j :: 0 <= i < j < |bs| ==> bs[i] != bs[j]
  }

  /** The first position of `b` from `k` on, or the length when it is absent. */
  function FindFrom(bs: seq<int>, b: int, k: nat): (i: nat)
    requires k <= |bs|
    ensures k <= i <= |bs|
    ensures i < |bs| ==> bs[i] == b
    ensures forall j :: k <= j < i ==> bs[j] != b
    decreases |bs| - k
  {
    if k == |bs| || bs[k] == b then k else FindFrom(bs, b, k + 1)
  }

  function Find(bs: seq<int>, b: int): (i: nat)
    ensures i <= |bs|
    ensures i < |bs| ==> bs[i] == b
    ensures forall j :: 0 <= j < i ==> bs[j] != b
  {
    FindFrom(bs, b, 0)
  }

  lemma FindDistinct(bs: seq<int>, i: nat)
    requires Distinct(bs) && i < |bs|
    ensures Find(bs, bs[i]) == i
  {
  }

  /** The block list a header block announces; meaningful under `ValidHeader`. */
  function Announced(h: Block): (bs: seq<int>)
  {
    if |h| == HEADER_WORDS && 0 <= h[0] <= LOGSIZE then h[1..1 + h[0]] else []
  }

  /** The header block after `hb->n = n; hb->block[i] = block[i]` for `i < n`; other words stay. */
  function Stamped(h: Block, bs: seq<int>): (h': Block)
    requires |h| == HEADER_WORDS && |bs| <= LOGSIZE
    ensures |h'| == HEADER_WORDS && h'[0] == |bs| && Announced(h') == bs
    ensures forall i :: |bs| < i < HEADER_WORDS ==> h'[i] == h[i]
  {
    [|bs|] + bs + h[1 + |bs|..]
  }

  /** The log region fits the disk. */
  predicate Fits(g: Geometry, d: Disk) {
    && 1 <= g.size
    && g.start + g.size <= |d|
    && |d[g.start]| == HEADER_WORDS
  }

  /** A list of blocks that one transaction can hold. */
  predicate Loggable(g: Geometry, d: Disk, bs: seq<int>) {
    && |bs| <= LOGSIZE
    && |bs| < g.size
    && Distinct(bs)
    && forall i :: 0 <= i < |bs| ==> IsHome(g, d, bs[i])
  }

  predicate ValidDisk(g: Geometry, d: Disk) {
    && Fits(g, d)
    && 0 <= d[g.start][0] <= LOGSIZE
    && Loggable(g, d, Announced(d[g.start]))
  }

  function Logged(g: Geometry, d: Disk): seq<int>
    requires Fits(g, d)
  {
    Announced(d[g.start])
  }

  /** The contents recovery gives block `b`: its logged copy if the header names it. */
  function LogicalAt(g: Geometry, d: Disk, b: nat): Block
    requires ValidDisk(g, d) && IsHome(g, d, b)
  {
    var i := Find(Logged(g, d), b);
    if i < |Logged(g, d)| then d[g.start + 1 + i] else d[b]
  }

  /** A disk with its log region blanked, so that equality compares home blocks only. */
  function Home(g: Geometry, d: Disk): (h: Disk)
    ensures |h| == |d|
    ensures forall b :: 0 <= b < |d| ==> h[b] == if InLog(g, b) then [] else d[b]
  {
    seq(|d|, b requires 0 <= b < |d| => if InLog(g, b) then [] else d[b])
  }

  function Logical(g: Geometry, d: Disk): (h: Disk)
    requires ValidDisk(g, d)
    ensures |h| == |d|
    ensures forall b :: 0 <= b < |d| ==> h[b] == if InLog(g, b) then [] else LogicalAt(g, d, b)
  {
    seq(|d|, b requires 0 <= b < |d| => if InLog(g, b) then [] else LogicalAt(g, d, b))
  }

  /** The cache's view: a dirty buffer hides the disk block. */
  function View(g: Geometry, d: Disk, dirty: map<int, Block>): (h: Disk)
    ensures |h| == |d|
    ensures forall b :: 0 <= b < |d| ==> h[b] == if InLog(g, b) then [] else if b in dirty then dirty[b] else d[b]
  {
    seq(|d|, b requires 0 <= b < |d| => if InLog(g, b) then [] else if b in dirty then dirty[b] else d[b])
  }

  /** The view reads home blocks and dirty buffers only. */
  lemma ViewCongruence(g: Geometry, d: Disk, dirty: map<int, Block>, d': Disk, dirty': map<int, Block>)
    requires |d'| == |d|
    requires forall b :: 0 <= b < |d| && !InLog(g, b) ==>
      (if b in dirty' then dirty'[b] else d'[b]) == (if b in dirty then dirty[b] else d[b])
    ensures View(g, d', dirty') == View(g, d, dirty)
  {
  }

  // ---- The single-block writes of commit and recovery ----

  function Get(d: Disk, b: int): Block {
    if 0 <= b < |d| then d[b] else []
  }

  function Put(d: Disk, b: int, data: Block): Disk {
    if 0 <= b < |d| then d[b := data] else d
  }

  /** One turn of write_log: a cached block is copied to its log slot. */
  function CopyToLog(g: Geometry, d: Disk, tail: nat, data: Block): Disk {
    Put(d, g.start + 1 + tail, data)
  }

  /** write_head. */
  function WriteHeader(g: Geometry, d: Disk, bs: seq<int>): Disk {
    if Fits(g, d) && |bs| <= LOGSIZE then d[g.start := Stamped(d[g.start], bs)] else d
  }

  /** One turn of install_trans: a log slot is copied to its home. */
  function InstallOne(g: Geometry, d: Disk, bs: seq<int>, tail: nat): Disk {
    if tail < |bs| then Put(d, bs[tail], Get(d, g.start + 1 + tail)) else d
  }

  /** Log slots below `n` hold the cache's copies of the listed blocks. */
  predicate Copied(g: Geometry, d: Disk, bs: seq<int>, dirty: map<int, Block>, n: nat)
    requires Fits(g, d) && Loggable(g, d, bs) && n <= |bs|
  {
    forall i :: 0 <= i < n ==> bs[i] in dirty && d[g.start + 1 + i] == dirty[bs[i]]
  }

  /** Homes of the first `n` listed blocks equal their log slots. */
  predicate Installed(g: Geometry, d: Disk, bs: seq<int>, n: nat)
    requires Fits(g, d) && Loggable(g, d, bs) && n <= |bs|
  {
    forall i :: 0 <= i < n ==> d[bs[i]] == d[g.start + 1 + i]
  }

  /** With an erased header, the home blocks are the logical disk. */
  lemma ErasedIsHome(g: Geometry, d: Disk)
    requires ValidDisk(g, d) && Logged(g, d) == []
    ensures Logical(g, d) == Home(g, d)
  {
  }

  lemma CopyKeepsLogical(g: Geometry, d: Disk, tail: nat, data: Block)
    requires ValidDisk(g, d) && Logged(g, d) == [] && tail + 1 < g.size
    ensures var d' := CopyToLog(g, d, tail, data);
      ValidDisk(g, d') && Logged(g, d') == [] && Logical(g, d') == Logical(g, d)
  {
  }

  /** The commit point: one block write turns the old logical disk into the cache's view. */
  lemma HeaderCommits(g: Geometry, d: Disk, bs: seq<int>, dirty: map<int, Block>)
    requires ValidDisk(g, d) && Logged(g, d) == [] && Loggable(g, d, bs)
    requires Copied(g, d, bs, dirty, |bs|)
    requires forall b :: b in dirty ==> Find(bs, b) < |bs|
    ensures var d' := WriteHeader(g, d, bs);
      ValidDisk(g, d') && Logged(g, d') == bs && Logical(g, d') == View(g, d, dirty)
  {
    var d' := WriteHeader(g, d, bs);
    assert Logged(g, d') == bs;
    assert ValidDisk(g, d');
    forall b | 0 <= b < |d| && !InLog(g, b)
      ensures LogicalAt(g, d', b) == View(g, d, dirty)[b]
    {
      var i := Find(bs, b);
      if i < |bs| { assert d'[g.start + 1 + i] == dirty[bs[i]]; }
    }
    assert Logical(g, d') == View(g, d, dirty);
  }

  lemma InstallKeepsLogical(g: Geometry, d: Disk, tail: nat)
    requires ValidDisk(g, d) && tail < |Logged(g, d)|
    requires Installed(g, d, Logged(g, d), tail)
    ensures var bs := Logged(g, d); var d' := InstallOne(g, d, bs, tail);
      && ValidDisk(g, d') && Logged(g, d') == bs && Logical(g, d') == Logical(g, d)
      && Installed(g, d', bs, tail + 1)
  {
    var bs := Logged(g, d);
    var d' := InstallOne(g, d, bs, tail);
    assert Logged(g, d') == bs;
    assert ValidDisk(g, d');
    FindDistinct(bs, tail);
    forall b | 0 <= b < |d| && !InLog(g, b)
      ensures LogicalAt(g, d', b) == LogicalAt(g, d, b)
    {
      if b == bs[tail] { assert Find(bs, b) == tail; }
    }
    assert Logical(g, d') == Logical(g, d);
  }

  lemma EraseKeepsLogical(g: Geometry, d: Disk)
    requires ValidDisk(g, d) && Installed(g, d, Logged(g, d), |Logged(g, d)|)
    ensures var d' := WriteHeader(g, d, []);
      && ValidDisk(g, d') && Logged(g, d') == [] && Logical(g, d') == Logical(g, d)
      && Home(g, d') == Logical(g, d)
  {
    var d' := WriteHeader(g, d, []);
    forall b | 0 <= b < |d| && !InLog(g, b)
      ensures Logical(g, d')[b] == Logical(g, d)[b]
    {
      var i := Find(Logged(g, d), b);
    }
  }
}
