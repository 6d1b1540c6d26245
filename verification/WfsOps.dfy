/** The WFS operations that change the namespace, as functions on the image, with their error cases. */
module WfsOps {
  import opened Helpers
  import opened WfsNames
  import opened WfsBlocks

  datatype Errno = ENOENT | ENOTDIR | EISDIR | EEXIST | ENOSPC | ENAMETOOLONG | ENOTEMPTY | EPERM | EBUSY | EINVAL

  datatype Res<T> = Ok(value: T) | Err(error: Errno)

  /** dentry_to_num */
  function DentryToNum(fs: Fs, d: int, name: string): Res<nat>
    requires WellFormed(fs) && 0 <= d < |fs.inodes|
  {
    if !fs.inodes[d].isDir then Err(ENOTDIR) else
      var k := FindName(DirEnts(fs, d), name, 0);
      if k < SLOTS then Ok(DirEnts(fs, d)[k].num) else Err(ENOENT)
  }

  /** One turn of get_inode_from_path: look a component up, then fetch its inode. */
  function Child(fs: Fs, d: int, name: string): Res<nat>
    requires WellFormed(fs) && 0 <= d < |fs.inodes|
  {
    match DentryToNum(fs, d, name)
    case Err(e) => Err(e)
    case Ok(i) => if i < |fs.ibm| && fs.ibm[i] then Ok(i) else Err(ENOENT)
  }

  /** get_inode_from_path, on a list of components */
  function Locate(fs: Fs, p: seq<string>): (r: Res<nat>)
    requires WellFormed(fs) && 0 < |fs.ibm|
    ensures r.Ok? && fs.ibm[0] ==> r.value < |fs.ibm| && fs.ibm[r.value]
    decreases |p|
  {
    if p == [] then (if fs.ibm[0] then Ok(0) else Err(ENOENT)) else
    match Locate(fs, p[..|p| - 1])
    case Err(e) => Err(e)
    case Ok(d) => if d < |fs.ibm| then Child(fs, d, p[|p| - 1]) else Err(ENOENT)
  }

  lemma ChildIsLookup(fs: Fs, d: int, name: string)
    requires WellFormed(fs) && Shape(NsOf(fs)) && 0 <= d < |fs.inodes| && fs.ibm[d]
    ensures Lookup(NsOf(fs), d, name) == match Child(fs, d, name) { case Ok(i) => Some(i) case Err(_) => None }
  {
  }

  /** The path walk and the abstract tree agree. */
  lemma {:induction false} LocateIsResolve(fs: Fs, p: seq<string>)
    requires WellFormed(fs) && Shape(NsOf(fs))
    ensures Resolve(NsOf(fs), p) == match Locate(fs, p) { case Ok(i) => Some(i) case Err(_) => None }
    decreases |p|
  {
    if p != [] {
      LocateIsResolve(fs, p[..|p| - 1]);
      if Locate(fs, p[..|p| - 1]).Ok? {
        var d := Locate(fs, p[..|p| - 1]).value;
        ChildIsLookup(fs, d, p[|p| - 1]);
      }
    }
  }

  /** The first `k` components of the path lead to something that is not a directory. */
  predicate FileAt(ns: Ns, p: seq<string>, k: nat)
    requires Shape(ns)
  {
    k < |p| && Resolve(ns, p[..k]).Some? && !IsDir(ns, Resolve(ns, p[..k]).value)
  }

  lemma FileAtPrefix(ns: Ns, p: seq<string>, k: nat)
    requires Shape(ns) && p != [] && k < |p| - 1
    ensures FileAt(ns, p[..|p| - 1], k) == FileAt(ns, p, k)
  {
    assert p[..|p| - 1][..k] == p[..k];
  }

  /** Which error it is: ENOTDIR exactly when the path goes through something that is not a directory, else ENOENT. */
  lemma {:induction false} LocateErrors(fs: Fs, p: seq<string>)
    requires WellFormed(fs) && Shape(NsOf(fs))
    ensures Locate(fs, p) == Err(ENOTDIR) <==> exists k: nat :: FileAt(NsOf(fs), p, k)
    ensures Locate(fs, p).Err? ==> Locate(fs, p).error == ENOTDIR || Locate(fs, p).error == ENOENT
    decreases |p|
  {
    if p != [] {
      var ns, n, q := NsOf(fs), |p| - 1, p[..|p| - 1];
      LocateErrors(fs, q);
      LocateIsResolve(fs, q);
      forall k: nat | k < n ensures FileAt(ns, q, k) == FileAt(ns, p, k) { FileAtPrefix(ns, p, k); }
      if k: nat :| FileAt(ns, q, k) {
        assert FileAt(ns, p, k);
      } else if Locate(fs, q).Ok? {
        assert FileAt(ns, p, n) <==> !IsDir(ns, Locate(fs, q).value);
      }
    }
  }

  // ---- Inode headers ----

  function SetHeader(fs: Fs, i: int, size: nat, nlinks: int): (fs': Fs)
    requires WellFormed(fs) && 0 <= i < |fs.inodes| && fs.ibm[i]
    ensures WellFormed(fs')
  {
    fs.(inodes := fs.inodes[i := fs.inodes[i].(size := size, nlinks := nlinks)])
  }

  lemma SetHeaderOwnership(fs: Fs, i: int, size: nat, nlinks: int)
    requires Ownership(fs) && 0 <= i < |fs.inodes| && fs.ibm[i]
    ensures Ownership(SetHeader(fs, i, size, nlinks))
  {
    ContentOwnership(fs, SetHeader(fs, i, size, nlinks));
  }

  lemma SetHeaderNs(fs: Fs, i: int, size: nat, nlinks: int)
    requires WellFormed(fs) && 0 <= i < |fs.inodes| && fs.ibm[i]
    ensures WellFormed(SetHeader(fs, i, size, nlinks))
    ensures NsOf(SetHeader(fs, i, size, nlinks)) == NsOf(fs).(links := NsOf(fs).links[i := nlinks])
  {
    var fs' := SetHeader(fs, i, size, nlinks);
    forall d | 0 <= d < |fs.ibm| ensures DirEnts(fs', d) == DirEnts(fs, d) {
      assert forall k :: 0 <= k < SLOTS ==> DirEnt(fs', d, k) == DirEnt(fs, d, k);
    }
  }

  // ---- Entering a name ----

  /** The first slot at or after `k` that is not live, or SLOTS. */
  function FreeSlot(es: seq<Dentry>, k: nat): (r: nat)
    requires k <= |es|
    ensures k <= r <= |es|
    ensures r < |es| ==> !Live(es[r])
    ensures forall j :: k <= j < r ==> Live(es[j])
    decreases |es| - k
  {
    if k == |es| || !Live(es[k]) then k else FreeSlot(es, k + 1)
  }

  function Max(a: int, b: int): int { if a > b then a else b }

  /** The store at the end of add_dentry: the block is allocated if missing, the slot filled, the size raised. */
  function Enter(fs: Fs, d: int, k: nat, e: Dentry): Fs
    requires WellFormed(fs) && 0 <= d < |fs.inodes| && fs.ibm[d] && fs.inodes[d].isDir && k < SLOTS
    requires fs.inodes[d].blocks[k / PER_BLOCK] == 0 ==> CanAttach(fs, d, k / PER_BLOCK)
  {
    var fs1 := if fs.inodes[d].blocks[k / PER_BLOCK] == 0 then Attach(fs, d, k / PER_BLOCK) else fs;
    var fs2 := SetDent(fs1, d, k, e);
    SetHeader(fs2, d, Max(fs2.inodes[d].size, (k + 1) * 32), fs2.inodes[d].nlinks)
  }

  /** add_dentry */
  function AddDentry(fs: Fs, d: int, num: nat, name: string): Res<Fs>
    requires WellFormed(fs) && 0 <= d < |fs.inodes| && fs.ibm[d]
  {
    if !fs.inodes[d].isDir then Err(ENOTDIR)
    else if DentryToNum(fs, d, name).Ok? then Err(EEXIST)
    else if |name| == 0 || |name| >= MAX_NAME then Err(ENAMETOOLONG)
    else
      var k := FreeSlot(DirEnts(fs, d), 0);
      if k == SLOTS then Err(ENOSPC)
      else if fs.inodes[d].blocks[k / PER_BLOCK] == 0 && FirstFree(fs.dbm, 0) == |fs.dbm| then Err(ENOSPC)
      else Ok(Enter(fs, d, k, Dentry(name, num)))
  }

  /** The new inode and the parent's link count, before add_dentry. */
  function Announce(fs: Fs, d: int, i: int, isDir: bool): (fs': Fs)
    requires WellFormed(fs) && 0 <= d < |fs.inodes| && fs.ibm[d] && 0 <= i < |fs.inodes| && i != d
    ensures WellFormed(fs')
  {
    var fs1 := NewInode(fs, i, isDir);
    if isDir then SetHeader(fs1, d, fs1.inodes[d].size, fs1.inodes[d].nlinks + 1) else fs1
  }

  /** wfs_mknod and wfs_mkdir after the path is split: create `name` under the directory at `p`. */
  function CreateIn(fs: Fs, p: seq<string>, name: string, isDir: bool): (Fs, Res<nat>)
    requires WellFormed(fs) && 0 < |fs.ibm| && fs.ibm[0]
  {
    match Locate(fs, p)
    case Err(e) => (fs, Err(e))
    case Ok(d) =>
      if !fs.inodes[d].isDir then (fs, Err(ENOTDIR))
      else if DentryToNum(fs, d, name).Ok? then (fs, Err(EEXIST))
      else
        var i := FirstFree(fs.ibm, 0);
        if i == |fs.ibm| then (fs, Err(ENOSPC)) else
        var fs1 := Announce(fs, d, i, isDir);
        match AddDentry(fs1, d, i, name)
        case Err(e) => (fs, Err(e))
        case Ok(fs2) => (fs2, Ok(i))
  }

  /** wfs_mknod (isDir false) and wfs_mkdir (isDir true) */
  function Create(fs: Fs, path: seq<string>, isDir: bool): (Fs, Res<nat>)
    requires WellFormed(fs) && 0 < |fs.ibm| && fs.ibm[0]
  {
    if path == [] then (fs, Err(EINVAL)) else CreateIn(fs, path[..|path| - 1], path[|path| - 1], isDir)
  }

  lemma AnnounceOk(fs: Fs, d: int, i: int, isDir: bool)
    requires Ownership(fs) && 0 <= d < |fs.inodes| && fs.ibm[d] && fs.inodes[d].isDir
    requires 0 <= i < |fs.inodes| && !fs.ibm[i]
    ensures var fs1 := Announce(fs, d, i, isDir);
      && Ownership(fs1) && fs1.dbm == fs.dbm && fs1.ibm == fs.ibm[i := true]
      && fs1.inodes[d].isDir && fs1.inodes[d].size == fs.inodes[d].size && fs1.inodes[d].blocks == fs.inodes[d].blocks
      && DirEnts(fs1, d) == DirEnts(fs, d)
  {
    NewInodeOwnership(fs, i, isDir);
    var fs1 := NewInode(fs, i, isDir);
    if isDir { SetHeaderOwnership(fs1, d, fs1.inodes[d].size, fs1.inodes[d].nlinks + 1); }
    var fs2 := Announce(fs, d, i, isDir);
    assert forall k :: 0 <= k < SLOTS ==> DirEnt(fs2, d, k) == DirEnt(fs, d, k);
  }

  /** The namespace after Announce: as after creation, but for the entry itself. */
  lemma AnnounceNs(fs: Fs, d: int, i: int, isDir: bool)
    requires Ownership(fs) && 0 <= d < |fs.inodes| && fs.ibm[d] && fs.inodes[d].isDir
    requires 0 <= i < |fs.inodes| && !fs.ibm[i]
    ensures var fs1 := Announce(fs, d, i, isDir); var ns := NsOf(fs);
      && WellFormed(fs1)
      && NsOf(fs1) == Ns(ns.used[i := true], ns.dir[i := isDir],
                         ns.links[i := if isDir then 2 else 1][d := ns.links[d] + if isDir then 1 else 0], ns.ents)
  {
    AnnounceOk(fs, d, i, isDir);
    var fs1 := Announce(fs, d, i, isDir);
    var ns, ns1 := NsOf(fs), NsOf(fs1);
    forall e | 0 <= e < |fs.ibm| ensures DirEnts(fs1, e) == DirEnts(fs, e) {
      assert forall k :: 0 <= k < SLOTS ==> DirEnt(fs1, e, k) == DirEnt(fs, e, k);
    }
    assert ns1.ents == ns.ents;
    assert ns1.dir == ns.dir[i := isDir];
    assert ns1.links == ns.links[i := if isDir then 2 else 1][d := ns.links[d] + if isDir then 1 else 0];
  }

  lemma EnterOwnership(fs: Fs, d: int, k: nat, e: Dentry)
    requires Ownership(fs) && 0 <= d < |fs.inodes| && fs.ibm[d] && fs.inodes[d].isDir && k < SLOTS
    requires fs.inodes[d].blocks[k / PER_BLOCK] == 0 ==> FirstFree(fs.dbm, 0) < |fs.dbm|
    ensures Ownership(Enter(fs, d, k, e))
    ensures NsOf(Enter(fs, d, k, e)) == NsOf(fs).(ents := NsOf(fs).ents[d := NsOf(fs).ents[d][k := e]])
    ensures Enter(fs, d, k, e).ibm == fs.ibm
    ensures Enter(fs, d, k, e).inodes[d].size == Max(fs.inodes[d].size, (k + 1) * 32)
    ensures forall j :: 0 <= j < |fs.inodes| && j != d ==> Enter(fs, d, k, e).inodes[j] == fs.inodes[j]
  {
    var fs1 := if fs.inodes[d].blocks[k / PER_BLOCK] == 0 then Attach(fs, d, k / PER_BLOCK) else fs;
    if fs.inodes[d].blocks[k / PER_BLOCK] == 0 {
      AttachPointers(fs, d, k / PER_BLOCK);
      AttachOwnership(fs, fs1, d, k / PER_BLOCK, FirstFree(fs.dbm, 0));
      AttachKeepsNs(fs, d, k / PER_BLOCK);
    }
    assert HasSlot(fs1, d, k);
    SetDentOwnership(fs1, d, k, e);
    SetDentNs(fs1, d, k, e);
    var fs2 := SetDent(fs1, d, k, e);
    SetHeaderOwnership(fs2, d, Max(fs2.inodes[d].size, (k + 1) * 32), fs2.inodes[d].nlinks);
    SetHeaderNs(fs2, d, Max(fs2.inodes[d].size, (k + 1) * 32), fs2.inodes[d].nlinks);
    var fs3 := Enter(fs, d, k, e);
    assert NsOf(fs2).links[d := fs2.inodes[d].nlinks] == NsOf(fs2).links;
  }

  lemma CreateEntry(fs: Fs, d: int, k: int, i: int, name: string, isDir: bool)
    requires Ownership(fs) && SizesCover(fs) && CanCreate(NsOf(fs), d, k, i, name)
    requires fs.inodes[d].blocks[k / PER_BLOCK] == 0 ==> FirstFree(fs.dbm, 0) < |fs.dbm|
    ensures var fs1 := Announce(fs, d, i, isDir);
      && WellFormed(fs1) && fs1.inodes[d].isDir && fs1.ibm[d]
      && (fs1.inodes[d].blocks[k / PER_BLOCK] == 0 ==> CanAttach(fs1, d, k / PER_BLOCK))
      && var fs' := Enter(fs1, d, k, Dentry(name, i));
         && Ownership(fs') && SizesCover(fs')
         && NsOf(fs') == AddLeaf(NsOf(fs), d, k, i, name, isDir)
  {
    var fs1 := Announce(fs, d, i, isDir);
    AnnounceOk(fs, d, i, isDir);
    AnnounceNs(fs, d, i, isDir);
    EnterOwnership(fs1, d, k, Dentry(name, i));
    CreateSizes(fs, Enter(fs1, d, k, Dentry(name, i)), d, k, i, name, isDir);
  }

  /** What a successful CreateIn has checked on the way. */
  lemma CreateInChecks(fs: Fs, p: seq<string>, name: string, isDir: bool)
    requires Ownership(fs) && Shape(NsOf(fs)) && CreateIn(fs, p, name, isDir).1.Ok?
    ensures var (fs', r) := CreateIn(fs, p, name, isDir);
      && Locate(fs, p).Ok?
      && var d := Locate(fs, p).value; var k := FreeSlot(DirEnts(fs, d), 0);
         && CanCreate(NsOf(fs), d, k, r.value, name)
         && (fs.inodes[d].blocks[k / PER_BLOCK] == 0 ==> FirstFree(fs.dbm, 0) < |fs.dbm|)
         && var fs1 := Announce(fs, d, r.value, isDir);
            && WellFormed(fs1) && fs1.inodes[d].isDir && fs1.ibm[d]
            && (fs1.inodes[d].blocks[k / PER_BLOCK] == 0 ==> CanAttach(fs1, d, k / PER_BLOCK))
            && fs' == Enter(fs1, d, k, Dentry(name, r.value))
  {
    var d, i := Locate(fs, p).value, CreateIn(fs, p, name, isDir).1.value;
    AnnounceOk(fs, d, i, isDir);
  }

  /** A successful creation is the abstract one; a failed one changes nothing. */
  lemma CreateInAbstract(fs: Fs, p: seq<string>, name: string, isDir: bool)
    requires Ownership(fs) && SizesCover(fs) && Shape(NsOf(fs))
    ensures var (fs', r) := CreateIn(fs, p, name, isDir);
      && (r.Err? ==> fs' == fs)
      && (r.Ok? ==>
           && Locate(fs, p).Ok?
           && var d := Locate(fs, p).value; var k := FreeSlot(DirEnts(fs, d), 0);
              && CanCreate(NsOf(fs), d, k, r.value, name)
              && Ownership(fs') && SizesCover(fs') && NsOf(fs') == AddLeaf(NsOf(fs), d, k, r.value, name, isDir))
  {
    var (fs', r) := CreateIn(fs, p, name, isDir);
    if r.Ok? {
      CreateInChecks(fs, p, name, isDir);
      var d := Locate(fs, p).value;
      CreateEntry(fs, d, FreeSlot(DirEnts(fs, d), 0), r.value, name, isDir);
    }
  }

  lemma CreateSizes(fs: Fs, fs': Fs, d: int, k: int, i: int, name: string, isDir: bool)
    requires Ownership(fs) && SizesCover(fs) && CanCreate(NsOf(fs), d, k, i, name)
    requires WellFormed(fs') && NsOf(fs') == AddLeaf(NsOf(fs), d, k, i, name, isDir)
    requires fs'.inodes[d].size == Max(fs.inodes[d].size, (k + 1) * 32)
    requires forall j :: 0 <= j < |fs.inodes| && j != d && j != i ==> fs'.inodes[j] == fs.inodes[j]
    ensures SizesCover(fs')
  {
    forall e, l | 0 <= e < |fs'.ibm| && fs'.ibm[e] && fs'.inodes[e].isDir && 0 <= l < SLOTS && Live(DirEnt(fs', e, l))
      ensures l < fs'.inodes[e].size / 32
    {
      assert NsOf(fs').ents[e][l] == DirEnt(fs', e, l);
      if e != i { assert NsOf(fs).ents[e][l] == DirEnt(fs, e, l); }
      assert Blank(NsOf(fs).ents[i]);
    }
  }

  // ---- Removing a name ----

  /** remove_dentry, the parent's link count, and the victim with all its blocks. */
  function Drop(fs: Fs, d: int, k: nat, i: int): Fs
    requires WellFormed(fs) && 0 <= d < |fs.inodes| && fs.ibm[d] && k < SLOTS && 0 <= i < |fs.inodes|
  {
    var fs1 := SetDent(fs, d, k, FREE);
    var fs2 := if fs.inodes[i].isDir then SetHeader(fs1, d, fs1.inodes[d].size, fs1.inodes[d].nlinks - 1) else fs1;
    Release(fs2, i)
  }

  /** wfs_unlink after the path is split */
  function UnlinkIn(fs: Fs, p: seq<string>, name: string): (Fs, Res<nat>)
    requires WellFormed(fs) && 0 < |fs.ibm| && fs.ibm[0]
  {
    if Dot(name) then (fs, Err(EPERM)) else
    match Locate(fs, p)
    case Err(e) => (fs, Err(e))
    case Ok(d) =>
      if !fs.inodes[d].isDir then (fs, Err(ENOTDIR)) else
      match Child(fs, d, name)
      case Err(e) => (fs, Err(e))
      case Ok(i) =>
        if fs.inodes[i].isDir then (fs, Err(EISDIR)) else
        var k := FindNum(DirEnts(fs, d), i, 0);
        if k == SLOTS then (fs, Err(ENOENT))
        else if fs.inodes[i].nlinks - 1 <= 0 then (Drop(fs, d, k, i), Ok(i))
        else
          var fs1 := SetDent(fs, d, k, FREE);
          (SetHeader(fs1, i, fs1.inodes[i].size, fs1.inodes[i].nlinks - 1), Ok(i))
  }

  function Unlink(fs: Fs, path: seq<string>): (Fs, Res<nat>)
    requires WellFormed(fs) && 0 < |fs.ibm| && fs.ibm[0]
  {
    if path == [] then (fs, Err(EINVAL)) else UnlinkIn(fs, path[..|path| - 1], path[|path| - 1])
  }

  /** The emptiness scan of wfs_rmdir skips entries called "." and "..". */
  predicate LooksEmpty(es: seq<Dentry>) {
    forall k :: 0 <= k < |es| && Live(es[k]) ==> Dot(es[k].name)
  }

  /** wfs_rmdir after the path is split */
  function RmDirIn(fs: Fs, p: seq<string>, name: string): (Fs, Res<nat>)
    requires WellFormed(fs) && 0 < |fs.ibm| && fs.ibm[0]
  {
    match Locate(fs, p)
    case Err(e) => (fs, Err(e))
    case Ok(d) =>
      if !fs.inodes[d].isDir then (fs, Err(ENOTDIR)) else
      match Child(fs, d, name)
      case Err(e) => (fs, Err(e))
      case Ok(i) =>
        if !fs.inodes[i].isDir then (fs, Err(ENOTDIR))
        else if !LooksEmpty(DirEnts(fs, i)) then (fs, Err(ENOTEMPTY))
        else
          var k := FindNum(DirEnts(fs, d), i, 0);
          if k == SLOTS then (fs, Err(ENOENT)) else (Drop(fs, d, k, i), Ok(i))
  }

  function RmDir(fs: Fs, path: seq<string>): (Fs, Res<nat>)
    requires WellFormed(fs) && 0 < |fs.ibm| && fs.ibm[0]
  {
    if path == [] then (fs, Err(EBUSY)) else RmDirIn(fs, path[..|path| - 1], path[|path| - 1])
  }

  /** Exactly the blocks inode `i` points at are free afterwards. */
  ghost predicate Returned(fs: Fs, fs': Fs, i: int)
    requires WellFormed(fs) && 0 <= i < |fs.inodes|
  {
    |fs'.dbm| == |fs.dbm| && forall b :: 0 <= b < |fs.dbm| ==> fs'.dbm[b] == (fs.dbm[b] && !HasPtr(fs, i, b + 1))
  }

  /** Slot `k` of `d` named inode `i`; `fs'` is without both, and has exactly the victim's blocks back. */
  ghost predicate Dropped(fs: Fs, fs': Fs, d: int, k: int, i: int) {
    && WellFormed(fs) && Shape(NsOf(fs)) && Named(NsOf(fs), d, k, i) && 0 < i < |fs.inodes| && fs.ibm[i] && d != i
    && Ownership(fs') && SizesCover(fs') && NsOf(fs') == Cut(NsOf(fs), d, k, i)
    && Returned(fs, fs', i)
  }

  lemma DropSteps(fs: Fs, d: int, k: int, i: int)
    requires Ownership(fs) && HasSlot(fs, d, k) && 0 < i < |fs.inodes| && fs.ibm[i] && d != i
    ensures var fs1 := SetDent(fs, d, k, FREE); var ns1 := NsOf(fs1);
      && Ownership(Drop(fs, d, k, i))
      && NsOf(Drop(fs, d, k, i)) ==
         Ns(ns1.used[i := false], ns1.dir[i := false],
            ns1.links[d := ns1.links[d] - if fs.inodes[i].isDir then 1 else 0][i := 0], ns1.ents[i := Blanks()])
  {
    SetDentOwnership(fs, d, k, FREE);
    var fs1 := SetDent(fs, d, k, FREE);
    DropHeader(fs1, d, i);
    DropRelease(if fs.inodes[i].isDir then SetHeader(fs1, d, fs1.inodes[d].size, fs1.inodes[d].nlinks - 1) else fs1, i);
  }

  lemma DropNs(fs: Fs, d: int, k: int, i: int)
    requires Ownership(fs) && Shape(NsOf(fs)) && Named(NsOf(fs), d, k, i)
    requires 0 < i < |fs.inodes| && fs.ibm[i] && d != i
    ensures Ownership(Drop(fs, d, k, i)) && NsOf(Drop(fs, d, k, i)) == Cut(NsOf(fs), d, k, i)
    ensures HasSlot(fs, d, k)
  {
    assert DirEnt(fs, d, k) == NsOf(fs).ents[d][k];
    DropSteps(fs, d, k, i);
    SetDentNs(fs, d, k, FREE);
  }

  lemma DropBits(fs: Fs, d: int, k: int, i: int)
    requires Ownership(fs) && HasSlot(fs, d, k) && 0 < i < |fs.inodes| && fs.ibm[i] && d != i
    ensures Returned(fs, Drop(fs, d, k, i), i)
    ensures forall e :: 0 <= e < |fs.inodes| && e != i ==> Drop(fs, d, k, i).inodes[e].size == fs.inodes[e].size
  {
    var fs1 := SetDent(fs, d, k, FREE);
    SetDentOwnership(fs, d, k, FREE);
    var fs2 := if fs.inodes[i].isDir then SetHeader(fs1, d, fs1.inodes[d].size, fs1.inodes[d].nlinks - 1) else fs1;
    DropPointers(fs, fs1, fs2, i);
  }

  lemma DropAbstract(fs: Fs, d: int, k: int, i: int)
    requires Ownership(fs) && SizesCover(fs) && Shape(NsOf(fs)) && Named(NsOf(fs), d, k, i)
    requires 0 < i < |fs.inodes| && fs.ibm[i] && d != i
    ensures Dropped(fs, Drop(fs, d, k, i), d, k, i)
  {
    DropNs(fs, d, k, i);
    DropBits(fs, d, k, i);
    CutSizes(fs, Drop(fs, d, k, i), d, k, i);
  }

  lemma CutSizes(fs: Fs, fs': Fs, d: int, k: int, i: int)
    requires WellFormed(fs) && SizesCover(fs) && Shape(NsOf(fs)) && Named(NsOf(fs), d, k, i) && 0 <= i < |fs.inodes|
    requires WellFormed(fs') && NsOf(fs') == Cut(NsOf(fs), d, k, i)
    requires forall e :: 0 <= e < |fs.inodes| && e != i ==> fs'.inodes[e].size == fs.inodes[e].size
    ensures SizesCover(fs')
  {
    forall e, l | 0 <= e < |fs'.ibm| && fs'.ibm[e] && fs'.inodes[e].isDir && 0 <= l < SLOTS && Live(DirEnt(fs', e, l))
      ensures l < fs'.inodes[e].size / 32
    {
      assert NsOf(fs').ents[e][l] == DirEnt(fs', e, l) && NsOf(fs).ents[e][l] == DirEnt(fs, e, l);
    }
  }

  lemma DropHeader(fs1: Fs, d: int, i: int)
    requires Ownership(fs1) && 0 <= d < |fs1.inodes| && fs1.ibm[d] && 0 <= i < |fs1.inodes|
    ensures var fs2 := if fs1.inodes[i].isDir then SetHeader(fs1, d, fs1.inodes[d].size, fs1.inodes[d].nlinks - 1)
      else fs1;
      && Ownership(fs2)
      && NsOf(fs2) == NsOf(fs1).(links := NsOf(fs1).links[d := NsOf(fs1).links[d] -
           if fs1.inodes[i].isDir then 1 else 0])
  {
    if fs1.inodes[i].isDir {
      SetHeaderOwnership(fs1, d, fs1.inodes[d].size, fs1.inodes[d].nlinks - 1);
      SetHeaderNs(fs1, d, fs1.inodes[d].size, fs1.inodes[d].nlinks - 1);
    } else {
      assert NsOf(fs1).links[d := NsOf(fs1).links[d] - 0] == NsOf(fs1).links;
    }
  }

  lemma DropRelease(fs: Fs, i: int)
    requires Ownership(fs) && 0 <= i < |fs.inodes| && fs.ibm[i]
    ensures Ownership(Release(fs, i))
    ensures var ns := NsOf(fs);
      NsOf(Release(fs, i)) == Ns(ns.used[i := false], ns.dir[i := false], ns.links[i := 0], ns.ents[i := Blanks()])
  {
    ReleaseOwnership(fs, i);
    var fs', ns := Release(fs, i), NsOf(fs);
    var ns' := NsOf(fs');
    forall d | 0 <= d < |fs.ibm| ensures DirEnts(fs', d) == if d == i then Blanks() else DirEnts(fs, d) {
      forall k | 0 <= k < SLOTS ensures DirEnt(fs', d, k) == if d == i then FREE else DirEnt(fs, d, k) {
        ReleaseEntry(fs, i, d, k);
      }
    }
    assert ns'.ents == ns.ents[i := Blanks()];
    assert ns'.dir == ns.dir[i := false];
    assert ns'.links == ns.links[i := 0];
  }

  /** Neither clearing a slot nor changing a link count moves a pointer. */
  lemma DropPointers(fs: Fs, fs1: Fs, fs2: Fs, i: int)
    requires WellFormed(fs) && WellFormed(fs1) && WellFormed(fs2) && 0 <= i < |fs.inodes|
    requires fs1.ibm == fs.ibm && fs1.inodes == fs.inodes && |fs2.inodes| == |fs.inodes| && fs2.data == fs1.data
    requires |fs1.data| == |fs.data| && forall j :: 0 <= j < |fs.inodes| ==> fs2.inodes[j].blocks == fs.inodes[j].blocks
    requires forall b :: 0 <= b < |fs.data| && (fs.data[b].Ptrs? || fs1.data[b].Ptrs?) ==> fs1.data[b] == fs.data[b]
    ensures forall p :: HasPtr(fs2, i, p) == HasPtr(fs, i, p)
  {
    assert forall k :: 0 <= k < POSITIONS ==> PtrAt(fs2, i, k) == PtrAt(fs, i, k);
    forall p ensures HasPtr(fs2, i, p) == HasPtr(fs, i, p) {
      if HasPtr(fs, i, p) {
        var k :| 0 <= k < POSITIONS && PtrAt(fs, i, k) == p;
        assert PtrAt(fs2, i, k) == p;
      }
      if HasPtr(fs2, i, p) {
        var k :| 0 <= k < POSITIONS && PtrAt(fs2, i, k) == p;
        assert PtrAt(fs, i, k) == p;
      }
    }
  }

  /** The parts of the invariant that say nothing about reachability. */
  ghost predicate Sound(fs: Fs) {
    Ownership(fs) && SizesCover(fs) && Linked(NsOf(fs))
  }

  lemma ChildNamed(fs: Fs, d: int, name: string)
    requires Sound(fs) && 0 <= d < |fs.inodes| && fs.ibm[d] && fs.inodes[d].isDir && Child(fs, d, name).Ok?
    ensures var i := Child(fs, d, name).value; var k := FindNum(DirEnts(fs, d), i, 0);
      && k < SLOTS && Named(NsOf(fs), d, k, i) && 0 < i < |fs.inodes| && fs.ibm[i]
      && DirEnts(fs, d)[k].name == name
      && (!fs.inodes[i].isDir ==> fs.inodes[i].nlinks == 1 && Blank(NsOf(fs).ents[i]))
  {
    ChildIsLookup(fs, d, name);
    SameEntry(NsOf(fs), d, name);
    var i := Child(fs, d, name).value;
    assert NsOf(fs).links[i] == ExpectedLinks(NsOf(fs), i);
  }

  /** A directory does not contain itself. */
  lemma NotSelf(fs: Fs, p: seq<string>, name: string)
    requires Sound(fs) && Locate(fs, p).Ok? && Child(fs, Locate(fs, p).value, name).Ok?
    ensures Child(fs, Locate(fs, p).value, name).value != Locate(fs, p).value
  {
    var q := p + [name];
    assert q[..|q| - 1] == p;
    LocateIsResolve(fs, p);
    LocateIsResolve(fs, q);
    if Child(fs, Locate(fs, p).value, name).value == Locate(fs, p).value { OnePath(NsOf(fs), p, q); }
  }

  /** The file that a successful unlink finds is dropped; a failed unlink changes nothing. */
  lemma UnlinkAbstract(fs: Fs, p: seq<string>, name: string)
    requires Sound(fs)
    ensures var (fs', r) := UnlinkIn(fs, p, name);
      && (r.Err? ==> fs' == fs)
      && (r.Ok? ==> && Locate(fs, p).Ok? && Child(fs, Locate(fs, p).value, name) == r && !fs.inodes[r.value].isDir
                    && Dropped(fs, fs', Locate(fs, p).value, FindNum(DirEnts(fs, Locate(fs, p).value), r.value, 0),
                       r.value))
  {
    var (fs', r) := UnlinkIn(fs, p, name);
    if r.Ok? {
      var d, i := Locate(fs, p).value, r.value;
      ChildNamed(fs, d, name);
      DropAbstract(fs, d, FindNum(DirEnts(fs, d), i, 0), i);
    }
  }

  /** The directory that a successful rmdir finds is dropped; a failed rmdir changes nothing. */
  lemma RmDirAbstract(fs: Fs, p: seq<string>, name: string)
    requires Sound(fs)
    ensures var (fs', r) := RmDirIn(fs, p, name);
      && (r.Err? ==> fs' == fs)
      && (r.Ok? ==> && Locate(fs, p).Ok? && Child(fs, Locate(fs, p).value, name) == r
                    && fs.inodes[r.value].isDir && LooksEmpty(DirEnts(fs, r.value))
                    && Dropped(fs, fs', Locate(fs, p).value, FindNum(DirEnts(fs, Locate(fs, p).value), r.value, 0),
                       r.value))
  {
    var (fs', r) := RmDirIn(fs, p, name);
    if r.Ok? {
      var d, i := Locate(fs, p).value, r.value;
      ChildNamed(fs, d, name);
      NotSelf(fs, p, name);
      DropAbstract(fs, d, FindNum(DirEnts(fs, d), i, 0), i);
    }
  }
}
