/** log.c as it runs: the in-memory header, the dirty buffers, and the loops of commit and recovery.
    `trail` records the disk after every block write, so each entry is a place where power may fail. */
module LogDevice {
  import opened LogDisk

  /** Power may fail at each of these disks: all of them recover to `h`. */
  ghost predicate AllGive(g: Geometry, ds: seq<Disk>, h: Disk) {
    forall i :: 0 <= i < |ds| ==> ValidDisk(g, ds[i]) && Logical(g, ds[i]) == h
  }

  ghost function Extended(g: Geometry, ds: seq<Disk>, d: Disk, h: Disk): (ds': seq<Disk>)
    requires AllGive(g, ds, h) && ValidDisk(g, d) && Logical(g, d) == h
    ensures AllGive(g, ds', h) && ds' == ds + [d]
  {
    ds + [d]
  }

  lemma Associative<T>(a: seq<T>, b: seq<T>, c: seq<T>)
    ensures (a + b) + c == a + (b + c)
  {
  }

  class Log {
    const g: Geometry
    const block: array<int>         // log.lh.block
    var n: nat                      // log.lh.n
    var outstanding: nat
    var committing: bool
    var disk: Disk
    var dirty: map<int, Block>      // buffers with B_DIRTY; clean buffers equal their disk block
    ghost var trail: seq<Disk>

    /** The block list of the in-memory header. */
    function Lh(): seq<int>
      requires n <= block.Length
      reads this`n, block
    {
      block[..n]
    }

    ghost predicate Valid()
      reads this, block
    {
      && block.Length == LOGSIZE
      && n <= LOGSIZE
      && ValidDisk(g, disk)
      && Loggable(g, disk, Lh())
    }

    /** Dirty buffers are exactly the listed blocks. */
    ghost predicate Pinned()
      requires n <= block.Length
      reads this, block
    {
      && (forall i :: 0 <= i < n ==> block[i] in dirty)
      && (forall b :: b in dirty ==> Find(Lh(), b) < n)
    }

    constructor (g: Geometry, disk: Disk)
      requires ValidDisk(g, disk)
      ensures Valid() && this.g == g && this.disk == disk
      ensures n == 0 && outstanding == 0 && !committing && dirty == map[] && trail == []
    {
      this.g := g;
      this.block := new int[LOGSIZE];
      this.n := 0;
      this.outstanding := 0;
      this.committing := false;
      this.disk := disk;
      this.dirty := map[];
      this.trail := [];
    }

    /** A block as the cache shows it. */
    method Bread(b: int) returns (data: Block)
      ensures data == if b in dirty then dirty[b] else Get(disk, b)
    {
      if b in dirty { data := dirty[b]; } else { data := Get(disk, b); }
    }

    /** bwrite of one block: `d` is the disk afterwards. */
    method Bwrite(d: Disk)
      modifies this`disk, this`trail
      ensures disk == d && trail == old(trail) + [d]
    {
      disk := d;
      trail := trail + [d];
    }

    /** write_log: copy the listed buffers to the log, block by block. */
    method WriteLog() returns (ghost steps: seq<Disk>)
      requires Valid() && Pinned() && Logged(g, disk) == []
      modifies this`disk, this`trail
      ensures Valid() && Logged(g, disk) == [] && |disk| == old(|disk|)
      ensures Copied(g, disk, Lh(), dirty, n)
      ensures Home(g, disk) == old(Home(g, disk))
      ensures trail == old(trail) + steps && |steps| == n && AllGive(g, steps, Home(g, disk))
    {
      ghost var h, lh := Home(g, disk), Lh();
      steps := [];
      var tail := 0;
      while tail < n
        invariant tail <= n && ValidDisk(g, disk) && Loggable(g, disk, lh) && Logged(g, disk) == []
        invariant Copied(g, disk, lh, dirty, tail)
        invariant |disk| == old(|disk|) && Home(g, disk) == h
        invariant trail == old(trail) + steps && |steps| == tail && AllGive(g, steps, h)
      {
        var from := Bread(block[tail]);
        CopyTurn(g, disk, lh, dirty, tail);
        Bwrite(CopyToLog(g, disk, tail, from));
        Associative(old(trail), steps, [disk]);
        steps := Extended(g, steps, disk, h);
        tail := tail + 1;
      }
    }

    /** write_head: the header is filled word by word in its buffer and written as one block; it then announces the
        in-memory list, and no other block changes. */
    method WriteHead()
      requires block.Length == LOGSIZE && n <= LOGSIZE && Fits(g, disk)
      modifies this`disk, this`trail
      ensures disk == WriteHeader(g, old(disk), Lh()) && trail == old(trail) + [disk]
      ensures |disk| == |old(disk)| && Announced(disk[g.start]) == Lh()
      ensures forall b :: 0 <= b < |disk| && b != g.start ==> disk[b] == old(disk)[b]
    {
      var hb := disk[g.start];
      hb := hb[0 := n];
      var i := 0;
      while i < n
        invariant 0 <= i <= n && |hb| == HEADER_WORDS && hb[0] == n
        invariant forall j :: 0 <= j < i ==> hb[1 + j] == block[j]
        invariant forall j :: 1 + i <= j < HEADER_WORDS ==> hb[j] == disk[g.start][j]
      {
        hb := hb[1 + i := block[i]];
        i := i + 1;
      }
      assert hb == Stamped(disk[g.start], block[..n]);
      Bwrite(disk[g.start := hb]);
    }

    /** read_head */
    method ReadHead()
      requires block.Length == LOGSIZE && ValidDisk(g, disk)
      modifies this`n, block
      ensures Valid() && Lh() == Logged(g, disk)
    {
      var h := disk[g.start];
      n := h[0];
      var i := 0;
      while i < n
        invariant i <= n == h[0]
        invariant forall j :: 0 <= j < i ==> block[j] == h[1 + j]
      {
        block[i] := h[1 + i];
        i := i + 1;
      }
      assert block[..n] == Announced(h);
    }

    /** install_trans: copy log blocks home; the buffers become clean. */
    method InstallTrans() returns (ghost steps: seq<Disk>)
      requires Valid() && Logged(g, disk) == Lh()
      modifies this`disk, this`trail, this`dirty
      ensures Valid() && Logged(g, disk) == Lh() && |disk| == old(|disk|)
      ensures Installed(g, disk, Lh(), n) && Logical(g, disk) == old(Logical(g, disk))
      ensures dirty.Keys <= old(dirty).Keys && forall i :: 0 <= i < n ==> block[i] !in dirty
      ensures trail == old(trail) + steps && |steps| == n && AllGive(g, steps, Logical(g, disk))
    {
      ghost var h := Logical(g, disk);
      ghost var lh := Lh();
      steps := [];
      var tail := 0;
      while tail < n
        invariant tail <= n && Lh() == lh && ValidDisk(g, disk) && Logged(g, disk) == lh
        invariant |disk| == old(|disk|) && Installed(g, disk, lh, tail) && Logical(g, disk) == h
        invariant dirty.Keys <= old(dirty).Keys && forall i :: 0 <= i < tail ==> lh[i] !in dirty
        invariant trail == old(trail) + steps && |steps| == tail && AllGive(g, steps, h)
      {
        InstallKeepsLogical(g, disk, tail);
        Bwrite(InstallOne(g, disk, block[..n], tail));
        dirty := dirty - {block[tail]};
        Associative(old(trail), steps, [disk]);
        steps := Extended(g, steps, disk, h);
        tail := tail + 1;
      }
    }

    /** The tail shared by commit and recover_from_log: install_trans, n = 0, write_head. */
    method InstallAndErase() returns (ghost steps: seq<Disk>)
      requires Valid() && Logged(g, disk) == Lh()
      requires forall b :: b in dirty ==> Find(Lh(), b) < n
      modifies this`n, this`disk, this`trail, this`dirty
      ensures Valid() && n == 0 && dirty == map[] && Logged(g, disk) == [] && |disk| == old(|disk|)
      ensures Home(g, disk) == old(Logical(g, disk))
      ensures trail == old(trail) + steps && |steps| == old(n) + 1
      ensures AllGive(g, steps, old(Logical(g, disk)))
    {
      ghost var lh, cached, h := Lh(), dirty, Logical(g, disk);
      steps := InstallTrans();
      AllClean(lh, cached, dirty);
      n := 0;
      Erase(h);
      steps := Extended(g, steps, disk, h);
    }

    /** write_head with n = 0, after everything is home. */
    method Erase(ghost h: Disk)
      requires Valid() && n == 0 && Installed(g, disk, Logged(g, disk), |Logged(g, disk)|) && Logical(g, disk) == h
      modifies this`disk, this`trail
      ensures Valid() && Logged(g, disk) == [] && |disk| == old(|disk|) && Home(g, disk) == h && Logical(g, disk) == h
      ensures trail == old(trail) + [disk]
    {
      EraseKeepsLogical(g, disk);
      WriteHead();
    }

    /** recover_from_log: every disk on the way recovers to the same logical disk, and in the end
        the home blocks are that disk and the header is erased. */
    method RecoverFromLog() returns (ghost steps: seq<Disk>)
      requires block.Length == LOGSIZE && ValidDisk(g, disk) && dirty == map[]
      modifies this`n, this`disk, this`trail, this`dirty, block
      ensures Valid() && n == 0 && dirty == map[] && Logged(g, disk) == []
      ensures Home(g, disk) == old(Logical(g, disk))
      ensures trail == old(trail) + steps && |steps| == old(|Logged(g, disk)|) + 1
      ensures AllGive(g, steps, old(Logical(g, disk)))
    {
      ReadHead();
      steps := InstallAndErase();
    }

    /** The first half of commit: write_log, then the header write that commits. */
    method WriteLogAndHead() returns (ghost before: seq<Disk>)
      requires Valid() && Pinned() && Logged(g, disk) == []
      modifies this`disk, this`trail
      ensures Valid() && Logged(g, disk) == Lh() && |disk| == old(|disk|)
      ensures Logical(g, disk) == old(View(g, disk, dirty))
      ensures trail == old(trail) + before + [disk] && |before| == n
      ensures AllGive(g, before, old(Home(g, disk)))
    {
      before := WriteLog();
      ViewOfHome(g, old(disk), disk, dirty);
      HeaderCommits(g, disk, Lh(), dirty);
      WriteHead();
    }

    /** commit: before the header write every disk on the way recovers to the old contents, from the
        header write on to the cache's view; afterwards the home blocks are that view. */
    method Commit() returns (ghost before: seq<Disk>, ghost after: seq<Disk>)
      requires Valid() && Pinned() && Logged(g, disk) == []
      modifies this`n, this`disk, this`trail, this`dirty
      ensures Valid() && n == 0 && dirty == map[] && Logged(g, disk) == [] && |disk| == old(|disk|)
      ensures Home(g, disk) == old(View(g, disk, dirty))
      ensures trail == old(trail) + before + after
      ensures |before| == old(n) && |after| == if old(n) == 0 then 0 else old(n) + 2
      ensures AllGive(g, before, old(Home(g, disk))) && AllGive(g, after, old(View(g, disk, dirty)))
    {
      before, after := [], [];
      if n > 0 {
        before := WriteLogAndHead();
        ghost var committed := disk;
        ghost var steps := InstallAndErase();
        after := [committed] + steps;
        Associative(old(trail) + before, [committed], steps);
      } else {
        AllClean(Lh(), dirty, dirty);
        assert View(g, disk, dirty) == Home(g, disk);
      }
    }

    /** One pass of begin_op's loop; `false` means the caller sleeps. */
    method BeginOp() returns (admitted: bool)
      modifies this`outstanding
      ensures admitted == (!committing && n + (old(outstanding) + 1) * MAXOPBLOCKS <= LOGSIZE)
      ensures outstanding == if admitted then old(outstanding) + 1 else old(outstanding)
    {
      if committing {
        admitted := false;
      } else if n + (outstanding + 1) * MAXOPBLOCKS > LOGSIZE {
        admitted := false;
      } else {
        outstanding := outstanding + 1;
        admitted := true;
      }
    }

    /** end_op: the last operation out commits; nothing else changes the disk.  `ok` is false on panic. */
    method EndOp() returns (ok: bool)
      requires Valid() && Pinned() && Logged(g, disk) == [] && outstanding > 0
      modifies this`n, this`disk, this`trail, this`dirty, this`outstanding, this`committing
      ensures ok == !old(committing) && outstanding == old(outstanding) - 1
      ensures Valid() && Pinned() && Logged(g, disk) == [] && committing == old(committing)
      ensures View(g, disk, dirty) == old(View(g, disk, dirty))
      ensures ok && outstanding == 0 ==> n == 0 && dirty == map[] && Home(g, disk) == old(View(g, disk, dirty))
      ensures !(ok && outstanding == 0) ==>
        disk == old(disk) && trail == old(trail) && n == old(n) && dirty == old(dirty)
    {
      outstanding := outstanding - 1;
      if committing { return false; }
      if outstanding == 0 {
        committing := true;
        ghost var before, after := Commit();
        assert View(g, disk, dirty) == Home(g, disk);
        committing := false;
      }
      ok := true;
    }

    /** The locked part of log_write: absorb the block or append it, and pin its buffer. */
    method Record(b: int, data: Block)
      requires Valid() && Pinned() && IsHome(g, disk, b) && n < LOGSIZE && n < g.size - 1
      modifies this`n, this`dirty, block
      ensures Valid() && Pinned() && dirty == old(dirty)[b := data]
      ensures Lh() == if old(Find(Lh(), b) < n) then old(Lh()) else old(Lh()) + [b]
    {
      ghost var lh := Lh();
      Enlist(b);
      ListOne(g, disk, lh, b);
      PinOne(lh, b, dirty, data);
      dirty := dirty[b := data];
    }

    /** The block number's place in the header. */
    method Enlist(b: int)
      requires block.Length == LOGSIZE && n < LOGSIZE
      modifies this`n, block
      ensures n <= LOGSIZE && Lh() == if old(Find(Lh(), b) < n) then old(Lh()) else old(Lh()) + [b]
    {
      ghost var lh := Lh();
      var i := 0;
      while i < n && block[i] != b
        invariant 0 <= i <= n && i <= Find(lh, b)
      {
        i := i + 1;
      }
      block[i] := b;
      if i == n { n := n + 1; }
      assert Lh() == if i < |lh| then lh else lh + [b];
    }

    /** log_write of a buffer whose new contents are `data`; `ok` is false when it panics. */
    method LogWrite(b: int, data: Block) returns (ok: bool)
      requires Valid() && Pinned() && IsHome(g, disk, b)
      modifies this`n, this`dirty, block
      ensures Valid() && Pinned()
      ensures ok == (old(n) < LOGSIZE && old(n) < g.size - 1 && outstanding >= 1)
      ensures !ok ==> Lh() == old(Lh()) && dirty == old(dirty)
      ensures ok ==> Lh() == if old(Find(Lh(), b) < n) then old(Lh()) else old(Lh()) + [b]
      ensures ok ==> View(g, disk, dirty) == old(View(g, disk, dirty))[b := data]
    {
      if n >= LOGSIZE || n >= g.size - 1 { return false; }
      if outstanding < 1 { return false; }
      Record(b, data);
      ViewOne(g, disk, old(dirty), b, data);
      ok := true;
    }
  }

  lemma AppendFinds(lh: seq<int>, b: int, c: int)
    ensures Find(lh + [b], c) <= |lh| <==> Find(lh, c) < |lh| || c == b
  {
    if Find(lh, c) < |lh| { assert (lh + [b])[Find(lh, c)] == c; }
    assert (lh + [b])[|lh|] == b;
  }

  lemma ListOne(g: Geometry, d: Disk, lh: seq<int>, b: int)
    requires Loggable(g, d, lh) && IsHome(g, d, b) && |lh| < LOGSIZE && |lh| + 1 < g.size
    ensures Loggable(g, d, if Find(lh, b) < |lh| then lh else lh + [b])
  {
  }

  lemma ViewOne(g: Geometry, d: Disk, dirty: map<int, Block>, b: int, data: Block)
    requires IsHome(g, d, b)
    ensures View(g, d, dirty[b := data]) == View(g, d, dirty)[b := data]
  {
  }

  /** Listing a block and dirtying its buffer keeps the list and the dirty buffers in step. */
  lemma PinOne(lh: seq<int>, b: int, dirty: map<int, Block>, data: Block)
    requires forall i :: 0 <= i < |lh| ==> lh[i] in dirty
    requires forall c :: c in dirty ==> Find(lh, c) < |lh|
    ensures var lh' := if Find(lh, b) < |lh| then lh else lh + [b];
      && (forall i :: 0 <= i < |lh'| ==> lh'[i] in dirty[b := data])
      && (forall c :: c in dirty[b := data] ==> Find(lh', c) < |lh'|)
  {
    forall c { AppendFinds(lh, b, c); }
  }

  lemma AllClean(lh: seq<int>, before: map<int, Block>, after: map<int, Block>)
    requires after.Keys <= before.Keys
    requires forall b :: b in before ==> Find(lh, b) < |lh|
    requires forall i :: 0 <= i < |lh| ==> lh[i] !in after
    ensures after == map[]
  {
    forall b ensures b !in after {
      if b in before { assert lh[Find(lh, b)] !in after; }
    }
  }

  lemma ViewOfHome(g: Geometry, d: Disk, d': Disk, dirty: map<int, Block>)
    requires |d| == |d'| && Home(g, d) == Home(g, d')
    ensures View(g, d, dirty) == View(g, d', dirty)
  {
    assert forall b :: 0 <= b < |d| && !InLog(g, b) ==> Home(g, d)[b] == d[b] && Home(g, d')[b] == d'[b];
    ViewCongruence(g, d, dirty, d', dirty);
  }

  lemma CopyTurn(g: Geometry, d: Disk, lh: seq<int>, dirty: map<int, Block>, tail: nat)
    requires ValidDisk(g, d) && Logged(g, d) == [] && Loggable(g, d, lh) && tail < |lh|
    requires lh[tail] in dirty && Copied(g, d, lh, dirty, tail)
    ensures var d' := CopyToLog(g, d, tail, dirty[lh[tail]]);
      && |d'| == |d| && ValidDisk(g, d') && Logged(g, d') == [] && Loggable(g, d', lh)
      && Copied(g, d', lh, dirty, tail + 1) && Home(g, d') == Home(g, d) && Logical(g, d') == Home(g, d)
  {
    var d' := CopyToLog(g, d, tail, dirty[lh[tail]]);
    CopyKeepsLogical(g, d, tail, dirty[lh[tail]]);
    ErasedIsHome(g, d');
    assert Home(g, d') == Home(g, d);
  }
}
