/** What every file of WFS holds along a run, writes that ran out of space included, and when a gap reads as zero. */
module WfsRuns {
  import opened WfsNames
  import opened WfsBlocks
  import opened WfsOps
  import opened WfsFiles
  import opened WfsTheorems
  import opened WfsImage
  import opened WfsSpace

  /** A file on its own: its size, and all bytes stored in it, those beyond the size included; the rest is zero. */
  datatype Tape = Tape(size: nat, bytes: seq<Byte>)

  function Cell(t: Tape, x: nat): Byte { if x < |t.bytes| then t.bytes[x] else 0 }

  /** File `j` of the image holds just what is on the tape. */
  ghost predicate Plays(fs: Fs, j: int, t: Tape)
    requires IsFile(fs, j)
  {
    fs.inodes[j].size == t.size && forall x: nat :: ByteAt(fs, j, x) == Cell(t, x)
  }

  ghost function Recorded(fs: Fs, j: int): Tape {
    if IsFile(fs, j)
    then Tape(fs.inodes[j].size, seq(MAX_BLOCKS * BLOCK_SIZE, x requires 0 <= x => ByteAt(fs, j, x)))
    else Tape(0, [])
  }

  lemma RecordedPlays(fs: Fs, j: int)
    requires IsFile(fs, j)
    ensures Plays(fs, j, Recorded(fs, j))
  {
  }

  // ---- One operation ----

  /** The operation creates file `j`. */
  predicate Makes(fs: Fs, op: Op, j: int)
    requires WellFormed(fs) && 0 < |fs.ibm| && fs.ibm[0]
  {
    op.MkNod? && Create(fs, op.path, false).1.Ok? && Create(fs, op.path, false).1.value == j
  }

  /** The operation is a write that gets as far as the blocks of file `j`. */
  predicate WritesTo(fs: Fs, op: Op, j: int)
    requires WellFormed(fs) && 0 < |fs.ibm| && fs.ibm[0]
  {
    op.Writing? && Locate(fs, op.path).Ok? && Locate(fs, op.path).value == j && !fs.inodes[j].isDir
  }

  lemma WritesToFile(fs: Fs, op: Op, j: int)
    requires WellFormed(fs) && 0 < |fs.ibm| && fs.ibm[0] && WritesTo(fs, op, j)
    ensures IsFile(fs, j) && Next(fs, op) == WriteFile(fs, j, op.off, op.buf).0
  {
  }

  /** What the bytes that there is space for do to the tape; the size is raised only when that is all of them. */
  function Stamped(t: Tape, off: nat, buf: seq<Byte>, done: nat): Tape
    requires done <= |buf|
  {
    Tape(if done == |buf| then Max(t.size, off + |buf|) else t.size, Overlay(t.bytes, off, buf[..done]))
  }

  lemma StampedCell(t: Tape, off: nat, buf: seq<Byte>, done: nat, x: nat)
    requires done <= |buf|
    ensures Cell(Stamped(t, off, buf, done), x) == if off <= x < off + done then buf[x - off] else Cell(t, x)
  {
  }

  /** How many bytes of the write there is space for. */
  ghost function Room(fs: Fs, j: int, op: Op): (n: nat)
    requires IsFile(fs, j) && op.Writing?
    ensures n <= |op.buf|
  {
    StoredAll(fs, j, op.off, |op.buf|, FreeBlocks(fs), HasIndirect(fs, j));
    StoredBy(fs, j, op.off, |op.buf|)
  }

  /** The tape of file `j` after the operation; of the image it takes only what the path names, which inode is new and
      how many bytes there is space for. */
  ghost function TapeNext(fs: Fs, op: Op, j: int, t: Tape): Tape
    requires WellFormed(fs) && 0 < |fs.ibm| && fs.ibm[0]
  {
    if Makes(fs, op, j) then Tape(0, [])
    else if WritesTo(fs, op, j) then Stamped(t, op.off, op.buf, Room(fs, j, op))
    else t
  }

  lemma UntouchedPlays(fs: Fs, fs': Fs, j: int, t: Tape)
    requires Untouched(fs, fs', j) && Plays(fs, j, t)
    ensures Plays(fs', j, t)
  {
  }

  /** A file other than the new one was there before. */
  lemma CreateOld(fs: Fs, path: seq<string>, isDir: bool, fs': Fs, i: nat, j: int)
    requires FsInv(fs) && Create(fs, path, isDir) == (fs', Ok(i)) && IsFile(fs', j)
    ensures if j == i then !isDir else IsFile(fs, j)
  {
    CreateInAbstract(fs, path[..|path| - 1], path[|path| - 1], isDir);
    assert NsOf(fs').used[j] && !NsOf(fs').dir[j];
    assert j != i ==> NsOf(fs).used[j] && !NsOf(fs).dir[j];
  }

  lemma CreateNew(fs: Fs, path: seq<string>, fs': Fs, j: nat)
    requires FsInv(fs) && Create(fs, path, false) == (fs', Ok(j)) && IsFile(fs', j)
    ensures Plays(fs', j, Tape(0, []))
  {
    CreateBytes(fs, path, false, j);
  }

  lemma CreatePlays(fs: Fs, path: seq<string>, isDir: bool, fs': Fs, r: Res<nat>, j: int, t: Tape)
    requires FsInv(fs) && Create(fs, path, isDir) == (fs', r) && IsFile(fs', j) && (IsFile(fs, j) ==> Plays(fs, j, t))
    requires isDir || r.Err? || r.value != j
    ensures Plays(fs', j, t)
  {
    CreateBytes(fs, path, isDir, j);
    if r.Ok? { CreateOld(fs, path, isDir, fs', r.value, j); }
    UntouchedPlays(fs, fs', j, t);
  }

  /** The other files of a directory from which inode `i` was dropped. */
  lemma DropPlays(fs: Fs, d: int, k: int, i: int, j: int, t: Tape)
    requires Ownership(fs) && SizesCover(fs) && Shape(NsOf(fs)) && Named(NsOf(fs), d, k, i)
    requires 0 < i < |fs.inodes| && fs.ibm[i] && d != i
    requires IsFile(Drop(fs, d, k, i), j) && (IsFile(fs, j) ==> Plays(fs, j, t))
    ensures Plays(Drop(fs, d, k, i), j, t)
  {
    DropAbstract(fs, d, k, i);
    DropNs(fs, d, k, i);
    var fs' := Drop(fs, d, k, i);
    assert NsOf(fs').used[j] && !NsOf(fs').dir[j];
    assert j != i && NsOf(fs).used[j] && !NsOf(fs).dir[j];
    DropBytes(fs, d, k, i, j);
    UntouchedPlays(fs, fs', j, t);
  }

  lemma UnlinkPlays(fs: Fs, path: seq<string>, j: int, t: Tape)
    requires FsInv(fs) && IsFile(Unlink(fs, path).0, j) && (IsFile(fs, j) ==> Plays(fs, j, t))
    ensures Plays(Unlink(fs, path).0, j, t)
  {
    if path != [] {
      var p, name := path[..|path| - 1], path[|path| - 1];
      var r := UnlinkIn(fs, p, name).1;
      if r.Ok? {
        var d := Locate(fs, p).value;
        ChildNamed(fs, d, name);
        DropPlays(fs, d, FindNum(DirEnts(fs, d), r.value, 0), r.value, j, t);
      }
    }
  }

  lemma RmDirPlays(fs: Fs, path: seq<string>, j: int, t: Tape)
    requires FsInv(fs) && IsFile(RmDir(fs, path).0, j) && (IsFile(fs, j) ==> Plays(fs, j, t))
    ensures Plays(RmDir(fs, path).0, j, t)
  {
    if path != [] {
      var p, name := path[..|path| - 1], path[|path| - 1];
      var r := RmDirIn(fs, p, name).1;
      if r.Ok? {
        var d := Locate(fs, p).value;
        ChildNamed(fs, d, name);
        NotSelf(fs, p, name);
        DropPlays(fs, d, FindNum(DirEnts(fs, d), r.value, 0), r.value, j, t);
      }
    }
  }

  /** The loop of a write, for the file it writes to. */
  lemma StoredPlays(fs: Fs, mid: Fs, i: int, off: nat, buf: seq<Byte>, done: nat, t: Tape)
    requires Progress(fs, mid, i, off, buf, done) && IsFile(mid, i) && Plays(fs, i, t)
    ensures done == |buf| ==> Plays(Resized(mid, i, off + done), i, Stamped(t, off, buf, done))
    ensures done < |buf| ==> Plays(mid, i, Stamped(t, off, buf, done))
  {
    assert SameHeader(fs.inodes[i], mid.inodes[i]);
    forall x: nat ensures ByteAt(mid, i, x) == Cell(Stamped(t, off, buf, done), x) {
      StampedCell(t, off, buf, done, x);
      assert off <= x < off + done ==> buf[..done][x - off] == buf[x - off];
    }
    forall x: nat ensures ByteAt(Resized(mid, i, off + done), i, x) == ByteAt(mid, i, x) {
    }
  }

  /** The other files */
  lemma OtherPlays(fs: Fs, mid: Fs, i: int, off: nat, buf: seq<Byte>, done: nat, j: int, t: Tape)
    requires Progress(fs, mid, i, off, buf, done) && IsFile(mid, i) && j != i && (IsFile(fs, j) ==> Plays(fs, j, t))
    ensures IsFile(mid, j) ==> Plays(mid, j, t)
    ensures IsFile(Resized(mid, i, off + done), j) ==> Plays(Resized(mid, i, off + done), j, t)
  {
    if IsFile(mid, j) {
      assert SameHeader(fs.inodes[j], mid.inodes[j]);
      forall x: nat ensures ByteAt(Resized(mid, i, off + done), j, x) == ByteAt(mid, j, x) {
      }
    }
  }

  lemma WritePlays(fs: Fs, i: int, off: nat, buf: seq<Byte>, j: int, t: Tape)
    requires Ownership(fs) && IsFile(fs, i) && (IsFile(fs, j) ==> Plays(fs, j, t))
    requires IsFile(WriteFile(fs, i, off, buf).0, j)
    ensures StoredBy(fs, i, off, |buf|) <= |buf|
    ensures Plays(WriteFile(fs, i, off, buf).0, j, if j == i then Stamped(t, off, buf, StoredBy(fs, i, off, |buf|))
      else t)
  {
    var r := WriteLoop(fs, i, off, buf);
    LoopWrote(fs, i, off, buf, r.0, r.1);
    LoopStored(fs, i, off, buf, r.0, r.1);
    if j == i { StoredPlays(fs, r.0, i, off, buf, r.1, t); } else { OtherPlays(fs, r.0, i, off, buf, r.1, j, t); }
  }

  lemma NextPlays(fs: Fs, op: Op, j: int, t: Tape)
    requires FsInv(fs) && IsFile(Next(fs, op), j) && (IsFile(fs, j) ==> Plays(fs, j, t))
    ensures Plays(Next(fs, op), j, TapeNext(fs, op, j, t))
  {
    match op
    case MkNod(path) =>
      var (fs', r) := Create(fs, path, false);
      if r.Ok? && r.value == j { CreateNew(fs, path, fs', j); } else { CreatePlays(fs, path, false, fs', r, j, t); }
    case MkDir(path) => CreatePlays(fs, path, true, Next(fs, op), Create(fs, path, true).1, j, t);
    case Unlinking(path) => UnlinkPlays(fs, path, j, t);
    case RmDirs(path) => RmDirPlays(fs, path, j, t);
    case Writing(path, off, buf) =>
      var r := Locate(fs, path);
      if r.Ok? && !fs.inodes[r.value].isDir { WritePlays(fs, r.value, off, buf, j, t); }
  }

  // ---- Runs ----

  predicate Started(fs: Fs) { WellFormed(fs) && 0 < |fs.ibm| && fs.ibm[0] }

  lemma StartedAt(states: seq<Fs>, ops: seq<Op>, k: nat)
    requires IsRun(states, ops) && k < |ops|
    ensures Started(states[k]) && states[k + 1] == Next(states[k], ops[k])
  {
    assert StepAt(states, ops, k);
  }

  /** The tape of file `j` after the first `k` operations */
  ghost function TapeOf(states: seq<Fs>, ops: seq<Op>, k: nat, j: int): Tape
    requires IsRun(states, ops) && k <= |ops|
  {
    if k == 0 then Recorded(states[0], j)
    else
      StartedAt(states, ops, k - 1);
      TapeNext(states[k - 1], ops[k - 1], j, TapeOf(states, ops, k - 1, j))
  }

  /** If inode `j` is a file it holds what is on the tape.  The quantifier over the one inode keeps this a single fact
      in the proofs that carry it along. */
  ghost predicate Follows(fs: Fs, j: int, t: Tape) {
    forall i | i == j && IsFile(fs, i) :: Plays(fs, i, t)
  }

  lemma NextFollows(fs: Fs, op: Op, fs': Fs, j: int, t: Tape)
    requires FsInv(fs) && fs' == Next(fs, op) && Follows(fs, j, t)
    ensures Follows(fs', j, TapeNext(fs, op, j, t))
  {
    assert IsFile(fs, j) ==> Plays(fs, j, t);
    if IsFile(fs', j) { NextPlays(fs, op, j, t); }
  }

  lemma StepFollows(states: seq<Fs>, ops: seq<Op>, k: nat, j: int, t: Tape, t': Tape)
    requires IsRun(states, ops) && Healthy(states[0]) && 0 < k <= |ops| && Follows(states[k - 1], j, t)
    requires forall i :: 0 <= i < |ops| ==> CleanName(ops[i])
    requires Started(states[k - 1]) ==> t' == TapeNext(states[k - 1], ops[k - 1], j, t)
    ensures Follows(states[k], j, t')
  {
    RunHealthy(states, ops, k - 1);
    StartedAt(states, ops, k - 1);
    NextFollows(states[k - 1], ops[k - 1], states[k], j, t);
  }

  lemma {:induction false} RunFollows(states: seq<Fs>, ops: seq<Op>, k: nat, j: int)
    requires IsRun(states, ops) && Healthy(states[0]) && k <= |ops|
    requires forall i :: 0 <= i < |ops| ==> CleanName(ops[i])
    ensures Follows(states[k], j, TapeOf(states, ops, k, j))
  {
    if k == 0 {
      if IsFile(states[0], j) { RecordedPlays(states[0], j); }
    } else {
      RunFollows(states, ops, k - 1, j);
      StepFollows(states, ops, k, j, TapeOf(states, ops, k - 1, j), TapeOf(states, ops, k, j));
    }
  }

  /** In every run every file holds exactly what its own history says: nothing since it was created but the parts of
      writes to it that there was space for. */
  lemma RunTape(states: seq<Fs>, ops: seq<Op>, k: nat, j: int)
    requires IsRun(states, ops) && Healthy(states[0]) && k <= |ops| && IsFile(states[k], j)
    requires forall i :: 0 <= i < |ops| ==> CleanName(ops[i])
    ensures Plays(states[k], j, TapeOf(states, ops, k, j))
  {
    RunFollows(states, ops, k, j);
  }

  // ---- Gaps that read as zero ----

  /** Not a write to file `j` that leaves nonzero bytes beyond the size: there is space for all of it, or the part there
      is space for is zero there. */
  ghost predicate Harmless(fs: Fs, op: Op, j: int)
    requires Started(fs)
  {
    WritesTo(fs, op, j) ==>
      || HasSpace(fs, j, op.off, |op.buf|, FreeBlocks(fs), HasIndirect(fs, j))
      || forall x :: 0 <= x < Room(fs, j, op) && op.off + x >= fs.inodes[j].size ==> op.buf[x] == 0
  }

  /** Since file `j` was last created, every operation was harmless to it; what happened to other files does not
      matter. */
  ghost predicate Quiet(states: seq<Fs>, ops: seq<Op>, k: nat, j: int)
    requires IsRun(states, ops) && k <= |ops|
  {
    if k == 0 then IsFile(states[0], j) ==> CleanTail(states[0], j)
    else
      StartedAt(states, ops, k - 1);
      || Makes(states[k - 1], ops[k - 1], j)
      || (Quiet(states, ops, k - 1, j) && Harmless(states[k - 1], ops[k - 1], j))
  }

  /** The flat file after an operation: a write with space for all of it is an overlay, of another one the part within
      the size is kept. */
  ghost function FlatNext(fs: Fs, op: Op, j: int, f: seq<Byte>): seq<Byte>
    requires Started(fs)
  {
    if Makes(fs, op, j) then []
    else if WritesTo(fs, op, j) then
      if HasSpace(fs, j, op.off, |op.buf|, FreeBlocks(fs), HasIndirect(fs, j)) then Overlay(f, op.off, op.buf)
      else Overlay(f, op.off, op.buf[..Room(fs, j, op)])[..|f|]
    else f
  }

  ghost function FlatOf(states: seq<Fs>, ops: seq<Op>, k: nat, j: int): seq<Byte>
    requires IsRun(states, ops) && k <= |ops|
  {
    if k == 0 then (if IsFile(states[0], j) then Flat(states[0], j) else [])
    else
      StartedAt(states, ops, k - 1);
      FlatNext(states[k - 1], ops[k - 1], j, FlatOf(states, ops, k - 1, j))
  }

  ghost predicate Clean(t: Tape) { forall x: nat :: x >= t.size ==> Cell(t, x) == 0 }

  function Shown(t: Tape): seq<Byte> { seq(t.size, x requires 0 <= x => Cell(t, x)) }

  lemma StampedClean(t: Tape, off: nat, buf: seq<Byte>, done: nat)
    requires Clean(t) && done <= |buf|
    requires done == |buf| || forall x :: 0 <= x < done && off + x >= t.size ==> buf[x] == 0
    ensures var t' := Stamped(t, off, buf, done);
      && Clean(t')
      && Shown(t') == if done == |buf| then Overlay(Shown(t), off, buf)
         else Overlay(Shown(t), off, buf[..done])[..t.size]
  {
    var t' := Stamped(t, off, buf, done);
    forall x: nat ensures Cell(t', x) == if off <= x < off + done then buf[x - off] else Cell(t, x) {
      StampedCell(t, off, buf, done, x);
    }
  }

  lemma HarmlessClean(fs: Fs, op: Op, j: int, t: Tape)
    requires Started(fs) && Clean(t) && (IsFile(fs, j) ==> fs.inodes[j].size == t.size)
    requires Harmless(fs, op, j) && !Makes(fs, op, j)
    ensures Clean(TapeNext(fs, op, j, t)) && Shown(TapeNext(fs, op, j, t)) == FlatNext(fs, op, j, Shown(t))
  {
    if WritesTo(fs, op, j) {
      StoredAll(fs, j, op.off, |op.buf|, FreeBlocks(fs), HasIndirect(fs, j));
      StampedClean(t, op.off, op.buf, Room(fs, j, op));
    }
  }

  lemma RecordedClean(fs: Fs, j: int)
    requires IsFile(fs, j) ==> CleanTail(fs, j)
    ensures Clean(Recorded(fs, j)) && Shown(Recorded(fs, j)) == if IsFile(fs, j) then Flat(fs, j) else []
  {
    if IsFile(fs, j) { RecordedPlays(fs, j); }
  }

  lemma QuietStep(fs: Fs, op: Op, j: int, t: Tape, f: seq<Byte>)
    requires Started(fs) && Follows(fs, j, t)
    requires Makes(fs, op, j) || (Clean(t) && Shown(t) == f && Harmless(fs, op, j))
    ensures Clean(TapeNext(fs, op, j, t)) && Shown(TapeNext(fs, op, j, t)) == FlatNext(fs, op, j, f)
  {
    if !Makes(fs, op, j) {
      assert IsFile(fs, j) ==> Plays(fs, j, t);
      HarmlessClean(fs, op, j, t);
    }
  }

  /** What a quiet file shows. */
  ghost predicate Shows(t: Tape, f: seq<Byte>) { Clean(t) && Shown(t) == f }

  lemma {:induction false} QuietTape(states: seq<Fs>, ops: seq<Op>, k: nat, j: int)
    requires IsRun(states, ops) && Healthy(states[0]) && k <= |ops| && Quiet(states, ops, k, j)
    requires forall i :: 0 <= i < |ops| ==> CleanName(ops[i])
    ensures Shows(TapeOf(states, ops, k, j), FlatOf(states, ops, k, j))
  {
    if k == 0 {
      RecordedClean(states[0], j);
    } else {
      RunFollows(states, ops, k - 1, j);
      if Quiet(states, ops, k - 1, j) { QuietTape(states, ops, k - 1, j); }
      QuietTurn(states, ops, k, j, TapeOf(states, ops, k - 1, j), FlatOf(states, ops, k - 1, j));
    }
  }

  lemma QuietTurn(states: seq<Fs>, ops: seq<Op>, k: nat, j: int, t: Tape, f: seq<Byte>)
    requires IsRun(states, ops) && 0 < k <= |ops| && Quiet(states, ops, k, j) && Follows(states[k - 1], j, t)
    requires t == TapeOf(states, ops, k - 1, j) && f == FlatOf(states, ops, k - 1, j)
    requires Quiet(states, ops, k - 1, j) ==> Shows(t, f)
    ensures Shows(TapeOf(states, ops, k, j), FlatOf(states, ops, k, j))
  {
    StartedAt(states, ops, k - 1);
    QuietStep(states[k - 1], ops[k - 1], j, t, f);
  }

  /** A file to which every operation since its creation was harmless has no byte stored beyond its size, and reads as
      the overlay of the writes to it, with zeros in the gaps. */
  lemma RunClean(states: seq<Fs>, ops: seq<Op>, k: nat, j: int)
    requires IsRun(states, ops) && Healthy(states[0]) && k <= |ops| && IsFile(states[k], j) && Quiet(states, ops, k, j)
    requires forall i :: 0 <= i < |ops| ==> CleanName(ops[i])
    ensures CleanTail(states[k], j) && Flat(states[k], j) == FlatOf(states, ops, k, j)
  {
    RunTape(states, ops, k, j);
    QuietTape(states, ops, k, j);
    assert Flat(states[k], j) == Shown(TapeOf(states, ops, k, j));
  }

  /** From a fresh image on every state is healthy, every file holds what its own history says, and is the flat file its
      writes made if they were harmless. */
  lemma FreshRun(states: seq<Fs>, ops: seq<Op>, k: nat, inodes: nat, blocks: nat, j: int)
    requires inodes > 0 && IsRun(states, ops) && states[0] == Formatted(inodes, blocks) && k <= |ops|
    requires forall i :: 0 <= i < |ops| ==> CleanName(ops[i])
    ensures Healthy(states[k])
    ensures IsFile(states[k], j) ==> Plays(states[k], j, TapeOf(states, ops, k, j))
    ensures IsFile(states[k], j) && Quiet(states, ops, k, j) ==>
      CleanTail(states[k], j) && Flat(states[k], j) == FlatOf(states, ops, k, j)
  {
    FormattedHealthy(inodes, blocks);
    RunHealthy(states, ops, k);
    if IsFile(states[k], j) {
      RunTape(states, ops, k, j);
      if Quiet(states, ops, k, j) { RunClean(states, ops, k, j); }
    }
  }

  /** In a state where the file is clean, one more operation leaves it clean if and only if it is harmless to it. */
  lemma HarmlessIff(fs: Fs, op: Op, j: int)
    requires FsInv(fs) && IsFile(fs, j) && CleanTail(fs, j) && IsFile(Next(fs, op), j) && !Makes(fs, op, j)
    ensures CleanTail(Next(fs, op), j) <==> Harmless(fs, op, j)
  {
    if WritesTo(fs, op, j) {
      WritesToFile(fs, op, j);
      FailedWrite(fs, j, op.off, op.buf);
    } else {
      RecordedPlays(fs, j);
      NextPlays(fs, op, j, Recorded(fs, j));
    }
  }
}
