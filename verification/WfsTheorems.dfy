/** What every sequence of WFS operations keeps, starting from a fresh image. */
module WfsTheorems {
  import opened Helpers
  import opened WfsNames
  import opened WfsBlocks
  import opened WfsOps
  import opened WfsFiles

  lemma Split(path: seq<string>)
    requires path != []
    ensures path == path[..|path| - 1] + [path[|path| - 1]]
  {
  }

  /** Creation keeps the invariant, changes nothing when it fails, and otherwise makes exactly one more path
      resolve: the one it was given. */
  lemma CreateKeeps(fs: Fs, path: seq<string>, isDir: bool)
    requires FsInv(fs)
    ensures var (fs', r) := Create(fs, path, isDir);
      && FsInv(fs')
      && (r.Err? ==> fs' == fs)
      && (r.Ok? ==> forall q :: Resolve(NsOf(fs'), q) == if q == path then Some(r.value) else Resolve(NsOf(fs), q))
  {
    if path != [] {
      var p, name := path[..|path| - 1], path[|path| - 1];
      Split(path);
      CreateInAbstract(fs, p, name, isDir);
      var (fs', r) := CreateIn(fs, p, name, isDir);
      if r.Ok? {
        var d := Locate(fs, p).value;
        var k := FreeSlot(DirEnts(fs, d), 0);
        CreateTree(NsOf(fs), d, k, r.value, name, isDir);
        LocateIsResolve(fs, p);
        forall q ensures Resolve(NsOf(fs'), q) == if q == path then Some(r.value) else Resolve(NsOf(fs), q) {
          CreateResolve(NsOf(fs), d, k, r.value, name, isDir, p, q);
        }
      }
    }
  }

  lemma DroppedPaths(fs: Fs, fs': Fs, d: int, k: int, i: int, path: seq<string>)
    requires Dropped(fs, fs', d, k, i) && Linked(NsOf(fs)) && Blank(NsOf(fs).ents[i])
    requires Resolve(NsOf(fs), path) == Some(i)
    ensures Shape(NsOf(fs')) && forall q :: Resolve(NsOf(fs'), q) == if q == path then None else Resolve(NsOf(fs), q)
  {
    CutIsRemove(NsOf(fs), d, k, i);
    RemoveShape(NsOf(fs), d, k, i);
    forall q ensures Resolve(NsOf(fs'), q) == if q == path then None else Resolve(NsOf(fs), q) {
      RemoveResolve(NsOf(fs), d, k, i, q);
      if Resolve(NsOf(fs), q) == Some(i) { OnePath(NsOf(fs), q, path); }
    }
  }

  lemma DroppedKeeps(fs: Fs, fs': Fs, d: int, k: int, i: int)
    requires Dropped(fs, fs', d, k, i) && Tree(NsOf(fs)) && Blank(NsOf(fs).ents[i])
    ensures FsInv(fs')
  {
    CutIsRemove(NsOf(fs), d, k, i);
    RemoveTree(NsOf(fs), d, k, i);
  }

  /** A child found under `p` is what the whole path resolves to. */
  lemma ChildPath(fs: Fs, p: seq<string>, name: string)
    requires WellFormed(fs) && Shape(NsOf(fs)) && Locate(fs, p).Ok? && Child(fs, Locate(fs, p).value, name).Ok?
    ensures Resolve(NsOf(fs), p + [name]) == Some(Child(fs, Locate(fs, p).value, name).value)
  {
    var q := p + [name];
    assert q[..|q| - 1] == p;
    LocateIsResolve(fs, q);
  }

  /** Unlink keeps the invariant, changes nothing when it fails, and otherwise makes exactly its path unresolvable
      and returns exactly the blocks of the removed file. */
  lemma UnlinkKeeps(fs: Fs, path: seq<string>)
    requires FsInv(fs)
    ensures var (fs', r) := Unlink(fs, path);
      && FsInv(fs')
      && (r.Err? ==> fs' == fs)
      && (r.Ok? ==>
           && Resolve(NsOf(fs), path) == Some(r.value) && r.value < |fs.inodes| && !fs.inodes[r.value].isDir
           && Returned(fs, fs', r.value)
           && (forall q :: Resolve(NsOf(fs'), q) == if q == path then None else Resolve(NsOf(fs), q)))
  {
    if path != [] {
      var p, name := path[..|path| - 1], path[|path| - 1];
      Split(path);
      UnlinkAbstract(fs, p, name);
      var (fs', r) := UnlinkIn(fs, p, name);
      if r.Ok? {
        var d := Locate(fs, p).value;
        var k := FindNum(DirEnts(fs, d), r.value, 0);
        ChildPath(fs, p, name);
        assert Blank(NsOf(fs).ents[r.value]);
        DroppedKeeps(fs, fs', d, k, r.value);
        DroppedPaths(fs, fs', d, k, r.value, path);
      }
    }
  }

  /** Rmdir changes nothing when it fails.  When it succeeds the invariant survives exactly if the directory had
      no live entry at all (the scan overlooks entries called "." and ".."); then exactly its path stops
      resolving and exactly its blocks are returned. */
  lemma RmDirKeeps(fs: Fs, path: seq<string>)
    requires FsInv(fs)
    ensures var (fs', r) := RmDir(fs, path);
      && (r.Err? ==> fs' == fs)
      && (r.Ok? ==>
           && Resolve(NsOf(fs), path) == Some(r.value) && 0 < r.value < |fs.inodes| && fs.inodes[r.value].isDir
           && (FsInv(fs') <==> Blank(DirEnts(fs, r.value)))
           && (FsInv(fs') ==>
                && Returned(fs, fs', r.value)
                && (forall q :: Resolve(NsOf(fs'), q) == if q == path then None else Resolve(NsOf(fs), q))))
  {
    if path != [] {
      var p, name := path[..|path| - 1], path[|path| - 1];
      Split(path);
      RmDirAbstract(fs, p, name);
      var (fs', r) := RmDirIn(fs, p, name);
      if r.Ok? {
        var d := Locate(fs, p).value;
        var k := FindNum(DirEnts(fs, d), r.value, 0);
        ChildPath(fs, p, name);
        RmDirExact(fs, fs', d, k, r.value);
        if Blank(DirEnts(fs, r.value)) { DroppedPaths(fs, fs', d, k, r.value, path); }
      }
    }
  }

  lemma RmDirExact(fs: Fs, fs': Fs, d: int, k: int, i: int)
    requires FsInv(fs) && Dropped(fs, fs', d, k, i) && fs.inodes[i].isDir
    ensures FsInv(fs') <==> Blank(DirEnts(fs, i))
  {
    if Blank(DirEnts(fs, i)) {
      DroppedKeeps(fs, fs', d, k, i);
    } else {
      assert Tidy(NsOf(fs).ents[i]);
      var l :| 0 <= l < SLOTS && NsOf(fs).ents[i][l] != FREE;
      CutOrphans(NsOf(fs), d, k, i, l);
    }
  }

  /** Unlink succeeds exactly on paths of files, unless the last component is "." or "..". */
  lemma UnlinkOkIff(fs: Fs, path: seq<string>, i: nat)
    requires FsInv(fs)
    ensures Unlink(fs, path).1 == Ok(i) <==>
      && path != [] && !Dot(path[|path| - 1]) && Resolve(NsOf(fs), path) == Some(i)
      && i < |fs.inodes| && !fs.inodes[i].isDir
  {
    if path != [] {
      var p, name := path[..|path| - 1], path[|path| - 1];
      LocateIsResolve(fs, p);
      if Locate(fs, p).Ok? {
        var d := Locate(fs, p).value;
        ChildIsLookup(fs, d, name);
        if fs.inodes[d].isDir && Child(fs, d, name).Ok? { ChildNamed(fs, d, name); }
      }
    }
  }

  /** Room for one more entry in directory `d`: a slot, and a block for it. */
  predicate HasRoom(fs: Fs, d: int)
    requires WellFormed(fs) && 0 <= d < |fs.inodes| && fs.inodes[d].isDir
  {
    var k := FreeSlot(DirEnts(fs, d), 0);
    k < SLOTS && (fs.inodes[d].blocks[k / PER_BLOCK] != 0 || FirstFree(fs.dbm, 0) < |fs.dbm|)
  }

  /** Creation succeeds exactly when the path is new, its parent is a directory with room, the name is neither
      empty nor too long and an inode is free. */
  lemma CreateOkIff(fs: Fs, path: seq<string>, isDir: bool)
    requires FsInv(fs)
    ensures Create(fs, path, isDir).1.Ok? <==>
      && path != [] && Resolve(NsOf(fs), path) == None && 0 < |path[|path| - 1]| < MAX_NAME
      && (match Resolve(NsOf(fs), path[..|path| - 1])
          case None => false
          case Some(d) => IsDir(NsOf(fs), d) && HasRoom(fs, d))
      && FirstFree(fs.ibm, 0) < |fs.ibm|
  {
    if path != [] {
      var p, name := path[..|path| - 1], path[|path| - 1];
      LocateIsResolve(fs, p);
      if Locate(fs, p).Ok? && fs.inodes[Locate(fs, p).value].isDir {
        CreateUnder(fs, p, Locate(fs, p).value, name, isDir);
      }
    }
  }

  lemma CreateUnder(fs: Fs, p: seq<string>, d: nat, name: string, isDir: bool)
    requires FsInv(fs) && Locate(fs, p) == Ok(d) && fs.inodes[d].isDir
    ensures CreateIn(fs, p, name, isDir).1.Ok? <==>
      Lookup(NsOf(fs), d, name) == None && 0 < |name| < MAX_NAME && HasRoom(fs, d) && FirstFree(fs.ibm, 0) < |fs.ibm|
  {
    ChildIsLookup(fs, d, name);
    var k := FindName(DirEnts(fs, d), name, 0);
    assert k < SLOTS ==> Named(NsOf(fs), d, k, DirEnts(fs, d)[k].num);
    var i := FirstFree(fs.ibm, 0);
    if i < |fs.ibm| { AnnounceOk(fs, d, i, isDir); }
  }

  /** Rmdir succeeds exactly on paths of directories that look empty. */
  lemma RmDirOkIff(fs: Fs, path: seq<string>, i: nat)
    requires FsInv(fs)
    ensures RmDir(fs, path).1 == Ok(i) <==>
      path != [] && Resolve(NsOf(fs), path) == Some(i) && IsDir(NsOf(fs), i) && LooksEmpty(DirEnts(fs, i))
  {
    if path != [] {
      var p, name := path[..|path| - 1], path[|path| - 1];
      LocateIsResolve(fs, p);
      if Locate(fs, p).Ok? {
        var d := Locate(fs, p).value;
        ChildIsLookup(fs, d, name);
        if fs.inodes[d].isDir && Child(fs, d, name).Ok? { ChildNamed(fs, d, name); }
      }
    }
  }

  /** A file called "." makes an empty directory one that rmdir takes and the tree does not survive. */
  lemma DotBreaks(fs: Fs, path: seq<string>, i: nat)
    requires FsInv(fs) && path != [] && Resolve(NsOf(fs), path) == Some(i) && IsDir(NsOf(fs), i)
    requires Blank(DirEnts(fs, i))
    requires Create(fs, path + ["."], false).1.Ok?
    ensures var fs1 := Create(fs, path + ["."], false).0;
      FsInv(fs1) && RmDir(fs1, path).1 == Ok(i) && !FsInv(RmDir(fs1, path).0)
  {
    var q := path + ["."];
    var (fs1, r) := Create(fs, q, false);
    CreateKeeps(fs, q, false);
    assert q[..|q| - 1] == path && q[|q| - 1] == "." && path != q;
    CreateInAbstract(fs, path, ".", false);
    LocateIsResolve(fs, path);
    DotEntry(fs, fs1, i, FreeSlot(DirEnts(fs, i), 0), r.value);
    RmDirOkIff(fs1, path, i);
    RmDirKeeps(fs1, path);
  }

  lemma DotEntry(fs: Fs, fs1: Fs, i: nat, k: nat, n: nat)
    requires WellFormed(fs) && WellFormed(fs1) && CanCreate(NsOf(fs), i, k, n, ".") && Blank(DirEnts(fs, i)) && n > 0
    requires NsOf(fs1) == AddLeaf(NsOf(fs), i, k, n, ".", false)
    ensures IsDir(NsOf(fs1), i) && LooksEmpty(DirEnts(fs1, i)) && !Blank(DirEnts(fs1, i))
  {
    var es := DirEnts(fs1, i);
    assert es == NsOf(fs1).ents[i] == DirEnts(fs, i)[k := Dentry(".", n)];
    assert es[k] != FREE;
  }

  /** In an image without "." and ".." entries, rmdir finds only really empty directories. */
  lemma NoDotsEmpty(fs: Fs, i: int)
    requires WellFormed(fs) && Linked(NsOf(fs)) && NoDots(NsOf(fs)) && IsDir(NsOf(fs), i) && LooksEmpty(DirEnts(fs, i))
    ensures Blank(DirEnts(fs, i))
  {
    assert Tidy(NsOf(fs).ents[i]);
    forall k | 0 <= k < SLOTS ensures DirEnts(fs, i)[k] == FREE {
      assert NsOf(fs).ents[i][k] == DirEnts(fs, i)[k];
    }
  }

  lemma CreateNoDots(fs: Fs, path: seq<string>, isDir: bool)
    requires FsInv(fs) && NoDots(NsOf(fs)) && (path != [] ==> !Dot(path[|path| - 1]))
    ensures var fs' := Create(fs, path, isDir).0; WellFormed(fs') && Shape(NsOf(fs')) && NoDots(NsOf(fs'))
  {
    if path != [] {
      var p, name := path[..|path| - 1], path[|path| - 1];
      CreateInAbstract(fs, p, name, isDir);
      var (fs', r) := CreateIn(fs, p, name, isDir);
      if r.Ok? {
        var d := Locate(fs, p).value;
        var k := FreeSlot(DirEnts(fs, d), 0);
        CreateNamed(NsOf(fs), d, k, r.value, name, isDir);
        forall e, l | IsDir(NsOf(fs'), e) && 0 <= l < SLOTS && Live(NsOf(fs').ents[e][l])
          ensures !Dot(NsOf(fs').ents[e][l].name)
        {
          assert Named(NsOf(fs'), e, l, NsOf(fs').ents[e][l].num);
        }
      }
    }
  }

  lemma DroppedNoDots(fs: Fs, fs': Fs, d: int, k: int, i: int)
    requires Dropped(fs, fs', d, k, i) && NoDots(NsOf(fs)) && Blank(NsOf(fs).ents[i])
    ensures Shape(NsOf(fs')) && NoDots(NsOf(fs'))
  {
    CutIsRemove(NsOf(fs), d, k, i);
    RemoveNamed(NsOf(fs), d, k, i);
    forall e, l | IsDir(NsOf(fs'), e) && 0 <= l < SLOTS && Live(NsOf(fs').ents[e][l])
      ensures !Dot(NsOf(fs').ents[e][l].name)
    {
      assert Named(NsOf(fs'), e, l, NsOf(fs').ents[e][l].num);
    }
  }

  // ---- Contents of bystanders ----

  /** File `j` has the same size and bytes in both images. */
  ghost predicate Untouched(fs: Fs, fs': Fs, j: int) {
    && IsFile(fs, j) && IsFile(fs', j) && fs'.inodes[j].size == fs.inodes[j].size
    && forall x: nat :: ByteAt(fs', j, x) == ByteAt(fs, j, x)
  }

  lemma SetDentBytes(fs: Fs, d: int, k: nat, e: Dentry, j: int)
    requires IsFile(fs, j) && 0 <= d < |fs.inodes| && k < SLOTS
    ensures Untouched(fs, SetDent(fs, d, k, e), j)
  {
  }

  lemma EnterBytes(fs: Fs, d: int, k: nat, e: Dentry, j: int)
    requires Ownership(fs) && IsFile(fs, j) && 0 <= d < |fs.inodes| && fs.ibm[d] && fs.inodes[d].isDir && k < SLOTS
    requires fs.inodes[d].blocks[k / PER_BLOCK] == 0 ==> CanAttach(fs, d, k / PER_BLOCK)
    ensures Untouched(fs, Enter(fs, d, k, e), j)
  {
    var fs1 := if fs.inodes[d].blocks[k / PER_BLOCK] == 0 then Attach(fs, d, k / PER_BLOCK) else fs;
    var fs2 := SetDent(fs1, d, k, e);
    SetDentBytes(fs1, d, k, e, j);
    forall x: nat ensures ByteAt(Enter(fs, d, k, e), j, x) == ByteAt(fs, j, x) {
      if fs.inodes[d].blocks[k / PER_BLOCK] == 0 { AttachByte(fs, d, k / PER_BLOCK, j, x); }
      HeaderBytes(fs2, d, Max(fs2.inodes[d].size, (k + 1) * 32), fs2.inodes[d].nlinks, j, x);
    }
  }

  lemma AnnounceBytes(fs: Fs, d: int, i: int, isDir: bool, j: int)
    requires IsFile(fs, j) && 0 <= d < |fs.inodes| && fs.ibm[d] && fs.inodes[d].isDir && 0 <= i < |fs.inodes|
    requires !fs.ibm[i]
    ensures Untouched(fs, Announce(fs, d, i, isDir), j)
  {
  }

  lemma UntouchedTwice(fs: Fs, fs1: Fs, fs2: Fs, j: int)
    requires Untouched(fs, fs1, j) && Untouched(fs1, fs2, j)
    ensures Untouched(fs, fs2, j)
  {
  }

  /** What a successful creation did, seen from file `j` of the image after Announce. */
  lemma CreatedBytes(fs: Fs, p: seq<string>, name: string, isDir: bool, j: int)
    requires Ownership(fs) && Shape(NsOf(fs)) && CreateIn(fs, p, name, isDir).1.Ok?
    requires Locate(fs, p).Ok?
    ensures var (fs', r) := CreateIn(fs, p, name, isDir); var d := Locate(fs, p).value;
      && fs.ibm[d] && fs.inodes[d].isDir && r.value < |fs.inodes| && !fs.ibm[r.value]
      && (IsFile(Announce(fs, d, r.value, isDir), j) ==> Untouched(Announce(fs, d, r.value, isDir), fs', j))
  {
    CreateInChecks(fs, p, name, isDir);
    var (fs', r) := CreateIn(fs, p, name, isDir);
    var d := Locate(fs, p).value;
    var fs1 := Announce(fs, d, r.value, isDir);
    AnnounceOk(fs, d, r.value, isDir);
    if IsFile(fs1, j) { EnterBytes(fs1, d, FreeSlot(DirEnts(fs, d), 0), Dentry(name, r.value), j); }
  }

  /** Creating a file or directory leaves every file's contents alone, and a new file is empty and clean. */
  lemma CreateBytes(fs: Fs, path: seq<string>, isDir: bool, j: int)
    requires Ownership(fs) && Shape(NsOf(fs))
    ensures var (fs', r) := Create(fs, path, isDir);
      && (IsFile(fs, j) ==> Untouched(fs, fs', j))
      && (r.Ok? && !isDir ==> IsFile(fs', r.value) && fs'.inodes[r.value].size == 0 && CleanTail(fs', r.value))
  {
    if path != [] {
      var p, name := path[..|path| - 1], path[|path| - 1];
      var (fs', r) := CreateIn(fs, p, name, isDir);
      if r.Ok? {
        var d := Locate(fs, p).value;
        CreatedBytes(fs, p, name, isDir, j);
        var fs1 := Announce(fs, d, r.value, isDir);
        if IsFile(fs, j) {
          AnnounceBytes(fs, d, r.value, isDir, j);
          UntouchedTwice(fs, fs1, fs', j);
        }
        if !isDir {
          CreatedBytes(fs, p, name, isDir, r.value);
          assert forall x: nat :: ByteAt(fs1, r.value, x) == 0;
        }
      }
    }
  }

  lemma ReleaseBytes(fs: Fs, i: int, j: int)
    requires Ownership(fs) && 0 <= i < |fs.inodes| && fs.ibm[i] && IsFile(fs, j) && j != i
    ensures Untouched(fs, Release(fs, i), j)
  {
    var fs' := Release(fs, i);
    ReleaseOther(fs, i, j, 0);
    forall x: nat ensures ByteAt(fs', j, x) == ByteAt(fs, j, x) {
      if x / BLOCK_SIZE < MAX_BLOCKS {
        var l := PosOf(x / BLOCK_SIZE);
        ReleaseOther(fs, i, j, l);
        assert PtrOk(fs, j, l);
        forall k | 0 <= k < POSITIONS ensures PtrAt(fs, j, l) != 0 ==> PtrAt(fs, i, k) != PtrAt(fs, j, l) {
          SoleOwner(fs, i, k, j, l);
        }
      }
    }
  }

  lemma HeaderUntouched(fs: Fs, d: int, nlinks: int, j: int)
    requires IsFile(fs, j) && 0 <= d < |fs.inodes| && fs.ibm[d]
    ensures Untouched(fs, SetHeader(fs, d, fs.inodes[d].size, nlinks), j)
  {
  }

  /** Dropping an inode leaves every other file's contents alone. */
  lemma DropBytes(fs: Fs, d: int, k: int, i: int, j: int)
    requires Ownership(fs) && HasSlot(fs, d, k) && 0 < i < |fs.inodes| && fs.ibm[i] && d != i && IsFile(fs, j) && j != i
    ensures Untouched(fs, Drop(fs, d, k, i), j)
  {
    var fs1 := SetDent(fs, d, k, FREE);
    var fs2 := if fs.inodes[i].isDir then SetHeader(fs1, d, fs1.inodes[d].size, fs1.inodes[d].nlinks - 1) else fs1;
    DropBytesOwned(fs, d, k, i);
    DropBytesSteps(fs, fs1, fs2, d, k, i, j);
  }

  lemma DropBytesOwned(fs: Fs, d: int, k: int, i: int)
    requires Ownership(fs) && HasSlot(fs, d, k) && 0 <= i < |fs.inodes|
    ensures var fs1 := SetDent(fs, d, k, FREE);
      Ownership(if fs.inodes[i].isDir then SetHeader(fs1, d, fs1.inodes[d].size, fs1.inodes[d].nlinks - 1) else fs1)
  {
    SetDentOwnership(fs, d, k, FREE);
    DropHeader(SetDent(fs, d, k, FREE), d, i);
  }

  lemma DropBytesSteps(fs: Fs, fs1: Fs, fs2: Fs, d: int, k: int, i: int, j: int)
    requires IsFile(fs, j) && j != i && 0 <= d < |fs.inodes| && fs.ibm[d] && 0 <= k < SLOTS
    requires fs1 == SetDent(fs, d, k, FREE)
    requires fs2 == fs1 || fs2 == SetHeader(fs1, d, fs1.inodes[d].size, fs1.inodes[d].nlinks - 1)
    requires Ownership(fs2) && 0 <= i < |fs2.inodes| && fs2.ibm[i]
    ensures Untouched(fs, Release(fs2, i), j)
  {
    SetDentBytes(fs, d, k, FREE, j);
    if fs2 != fs1 {
      HeaderUntouched(fs1, d, fs1.inodes[d].nlinks - 1, j);
      UntouchedTwice(fs, fs1, fs2, j);
    }
    ReleaseBytes(fs2, i, j);
    UntouchedTwice(fs, fs2, Release(fs2, i), j);
  }

  // ---- Whole runs ----

  datatype Op =
    | MkNod(path: seq<string>)
    | MkDir(path: seq<string>)
    | Unlinking(path: seq<string>)
    | RmDirs(path: seq<string>)
    | Writing(path: seq<string>, off: nat, buf: seq<Byte>)

  /** wfs_write from the path on */
  function Write(fs: Fs, path: seq<string>, off: nat, buf: seq<Byte>): (Fs, Res<nat>)
    requires WellFormed(fs) && 0 < |fs.ibm| && fs.ibm[0]
  {
    match Locate(fs, path)
    case Err(e) => (fs, Err(e))
    case Ok(i) => if fs.inodes[i].isDir then (fs, Err(EISDIR)) else WriteFile(fs, i, off, buf)
  }

  function Next(fs: Fs, op: Op): Fs
    requires WellFormed(fs) && 0 < |fs.ibm| && fs.ibm[0]
  {
    match op
    case MkNod(path) => Create(fs, path, false).0
    case MkDir(path) => Create(fs, path, true).0
    case Unlinking(path) => Unlink(fs, path).0
    case RmDirs(path) => RmDir(fs, path).0
    case Writing(path, off, buf) => Write(fs, path, off, buf).0
  }

  /** The last component is not "." or "..". */
  predicate CleanName(op: Op) {
    op.path != [] ==> !Dot(op.path[|op.path| - 1])
  }

  ghost predicate Healthy(fs: Fs) {
    FsInv(fs) && NoDots(NsOf(fs))
  }

  lemma UnlinkHealthy(fs: Fs, path: seq<string>)
    requires Healthy(fs)
    ensures Healthy(Unlink(fs, path).0)
  {
    UnlinkKeeps(fs, path);
    if path != [] {
      var p, name := path[..|path| - 1], path[|path| - 1];
      UnlinkAbstract(fs, p, name);
      var (fs', r) := UnlinkIn(fs, p, name);
      if r.Ok? {
        var d := Locate(fs, p).value;
        assert Blank(NsOf(fs).ents[r.value]);
        DroppedNoDots(fs, fs', d, FindNum(DirEnts(fs, d), r.value, 0), r.value);
      }
    }
  }

  lemma RmDirHealthy(fs: Fs, path: seq<string>)
    requires Healthy(fs)
    ensures Healthy(RmDir(fs, path).0)
  {
    RmDirKeeps(fs, path);
    if path != [] {
      var p, name := path[..|path| - 1], path[|path| - 1];
      RmDirAbstract(fs, p, name);
      var (fs', r) := RmDirIn(fs, p, name);
      if r.Ok? {
        var d := Locate(fs, p).value;
        NoDotsEmpty(fs, r.value);
        DroppedNoDots(fs, fs', d, FindNum(DirEnts(fs, d), r.value, 0), r.value);
      }
    }
  }

  /** A write, complete or cut short, keeps the names and the ownership of blocks. */
  lemma WriteKept(fs: Fs, i: int, off: nat, buf: seq<Byte>)
    requires Ownership(fs) && IsFile(fs, i) && SizesCover(fs)
    ensures var fs' := WriteFile(fs, i, off, buf).0; Ownership(fs') && SizesCover(fs') && NsOf(fs') == NsOf(fs)
  {
    var r := WriteLoop(fs, i, off, buf);
    LoopWrote(fs, i, off, buf, r.0, r.1);
    ProgressKept(fs, r.0, i, off, buf, r.1);
  }

  lemma ProgressKept(fs: Fs, mid: Fs, i: int, off: nat, buf: seq<Byte>, done: nat)
    requires Progress(fs, mid, i, off, buf, done) && IsFile(mid, i) && SizesCover(fs)
    ensures Ownership(mid) && SizesCover(mid) && NsOf(mid) == NsOf(fs)
    ensures var fs' := Resized(mid, i, off + done); Ownership(fs') && SizesCover(fs') && NsOf(fs') == NsOf(fs)
  {
    ResizedKept(fs, mid, i, off + done);
  }

  lemma WriteHealthy(fs: Fs, path: seq<string>, off: nat, buf: seq<Byte>)
    requires Healthy(fs)
    ensures Healthy(Write(fs, path, off, buf).0)
  {
    if Locate(fs, path).Ok? && !fs.inodes[Locate(fs, path).value].isDir {
      WriteKept(fs, Locate(fs, path).value, off, buf);
      SameNamesHealthy(fs, Write(fs, path, off, buf).0);
    }
  }

  lemma SameNamesHealthy(fs: Fs, fs': Fs)
    requires Healthy(fs) && Ownership(fs') && SizesCover(fs') && NsOf(fs') == NsOf(fs)
    ensures Healthy(fs')
  {
  }

  /** Every operation, successful or not, keeps the image healthy. */
  lemma NextHealthy(fs: Fs, op: Op)
    requires Healthy(fs) && CleanName(op)
    ensures Healthy(Next(fs, op))
  {
    match op
    case MkNod(path) => CreateKeeps(fs, path, false); CreateNoDots(fs, path, false);
    case MkDir(path) => CreateKeeps(fs, path, true); CreateNoDots(fs, path, true);
    case Unlinking(path) => UnlinkHealthy(fs, path);
    case RmDirs(path) => RmDirHealthy(fs, path);
    case Writing(path, off, buf) => WriteHealthy(fs, path, off, buf);
  }

  /** `states` is a run of `ops`. */
  ghost predicate IsRun(states: seq<Fs>, ops: seq<Op>) {
    |states| == |ops| + 1 && forall k :: 0 <= k < |ops| ==> StepAt(states, ops, k)
  }

  ghost predicate StepAt(states: seq<Fs>, ops: seq<Op>, k: nat)
    requires k < |ops| && |states| == |ops| + 1
  {
    WellFormed(states[k]) && 0 < |states[k].ibm| && states[k].ibm[0] && states[k + 1] == Next(states[k], ops[k])
  }

  lemma StepHealthy(states: seq<Fs>, ops: seq<Op>, k: nat)
    requires IsRun(states, ops) && 0 < k <= |ops| && Healthy(states[k - 1])
    requires forall j :: 0 <= j < |ops| ==> CleanName(ops[j])
    ensures Healthy(states[k])
  {
    assert StepAt(states, ops, k - 1);
    NextHealthy(states[k - 1], ops[k - 1]);
  }

  /** In every state of every run from a healthy image the namespace is a tree with right link counts, and a
      data bit is set exactly when one pointer of one allocated inode leads to its block. */
  lemma {:induction false} RunHealthy(states: seq<Fs>, ops: seq<Op>, k: nat)
    requires IsRun(states, ops) && Healthy(states[0]) && k <= |ops|
    requires forall j :: 0 <= j < |ops| ==> CleanName(ops[j])
    ensures Healthy(states[k])
  {
    if k > 0 {
      RunHealthy(states, ops, k - 1);
      StepHealthy(states, ops, k);
    }
  }
}
