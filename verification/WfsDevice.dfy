/** wfs.c as it runs: the mapped image, changed in place by loops, proved against the functions of WfsOps
    and WfsFiles. */
module WfsDevice {
  import opened WfsNames
  import opened WfsBlocks
  import opened WfsOps
  import opened WfsFiles
  import opened WfsTheorems
  import WfsImage

  /** allocate_block: scan the 32-bit words of a bitmap for a clear bit; -1 when there is none. */
  method AllocateBlock(bm: seq<bool>) returns (idx: int)
    requires |bm| % 32 == 0
    ensures idx == if FirstFree(bm, 0) < |bm| then FirstFree(bm, 0) else -1
  {
    var words := |bm| / 32;
    var i := 0;
    while i < words
      invariant 0 <= i <= words && 32 * i <= FirstFree(bm, 0)
    {
      var word := bm[32 * i..32 * i + 32];
      if false in word {
        var k := 0;
        while k < 32
          invariant 0 <= k <= 32 && 32 * i + k <= FirstFree(bm, 0)
        {
          if !word[k] {
            return 32 * i + k;
          }
          k := k + 1;
        }
      } else {
        assert forall j :: 32 * i <= j < 32 * i + 32 ==> bm[j] by {
          forall j | 32 * i <= j < 32 * i + 32 ensures bm[j] { assert word[j - 32 * i] in word; }
        }
      }
      i := i + 1;
    }
    idx := -1;
  }

  class Wfs {
    var ibm: seq<bool>
    var inodes: seq<Inode>
    var dbm: seq<bool>
    var data: seq<Block>

    ghost function Image(): Fs
      reads this
    {
      Fs(ibm, inodes, dbm, data)
    }

    /** Bitmaps are whole words, tables match them, and there is a root. */
    ghost predicate Formed()
      reads this
    {
      WellFormed(Image()) && |ibm| % 32 == 0 && |dbm| % 32 == 0 && 0 < |ibm| && ibm[0]
    }

    /** The superblock that wfs_mkfs writes for tables of these sizes. */
    function Super(): WfsImage.Superblock
      reads this
    {
      WfsImage.SetupSb(|ibm|, |dbm|)
    }

    /** allocate_data_block; `zero` is the zeroed block as its user will read it.  0 when the disk is full. */
    method AllocateDataBlock(zero: Block) returns (p: nat)
      requires Formed()
      modifies this`dbm, this`data
      ensures FirstFree(old(dbm), 0) == |old(dbm)| ==> p == 0 && dbm == old(dbm) && data == old(data)
      ensures FirstFree(old(dbm), 0) < |old(dbm)| ==>
        p == FirstFree(old(dbm), 0) + 1 && dbm == old(dbm)[p - 1 := true] && data == old(data)[p - 1 := zero]
    {
      var idx := AllocateBlock(dbm);
      if idx < 0 { return 0; }
      dbm := dbm[idx := true];
      data := data[idx := zero];
      p := idx + 1;
    }

    /** dentry_to_num */
    method DentryToNum(d: nat, name: string) returns (r: Res<nat>)
      requires Formed() && d < |inodes| && ibm[d]
      requires forall k :: 0 <= k < SLOTS && Live(DirEnt(Image(), d, k)) ==> k < inodes[d].size / 32
      ensures r == WfsOps.DentryToNum(Image(), d, name)
    {
      if !inodes[d].isDir { return Err(ENOTDIR); }
      ghost var found := FindName(DirEnts(Image(), d), name, 0);
      var max := inodes[d].size / 32;
      var idx := 0;
      while idx < max
        invariant 0 <= idx <= max && (idx <= found || (found == SLOTS && idx >= SLOTS))
      {
        if idx / PER_BLOCK >= D_BLOCK { break; }
        var p := inodes[d].blocks[idx / PER_BLOCK];
        if p != 0 {
          var e := EntAt(data, p, idx % PER_BLOCK);
          assert e == DirEnt(Image(), d, idx);
          if Live(e) && e.name == name {
            return Ok(e.num);
          }
        }
        assert DirEnts(Image(), d)[idx] == DirEnt(Image(), d, idx);
        idx := idx + 1;
      }
      NameCovered(Image(), d, name);
      r := Err(ENOENT);
    }

    /** get_inode_from_path */
    method GetInode(path: seq<string>) returns (r: Res<nat>)
      requires Formed() && SizesCover(Image())
      ensures r == Locate(Image(), path)
    {
      var cur: nat := 0;
      var k := 0;
      assert path[..0] == [];
      while k < |path|
        invariant 0 <= k <= |path| && Locate(Image(), path[..k]) == Ok(cur) && cur < |ibm| && ibm[cur]
      {
        assert path[..k + 1][..k] == path[..k];
        ghost var next := Locate(Image(), path[..k + 1]);
        var child := DentryToNum(cur, path[k]);
        if child.Err? || child.value >= |ibm| || !ibm[child.value] {
          assert next.Err?;
          LocateFails(Image(), path, k + 1);
          return if child.Err? then Err(child.error) else Err(ENOENT);
        }
        cur := child.value;
        k := k + 1;
      }
      assert path[..|path|] == path;
      r := Ok(cur);
    }

    /** add_dentry; `Ok(0)` stands for success */
    method AddDentry(d: nat, num: nat, name: string) returns (r: Res<nat>)
      requires Formed() && d < |inodes| && ibm[d]
      requires forall k :: 0 <= k < SLOTS && Live(DirEnt(Image(), d, k)) ==> k < inodes[d].size / 32
      modifies this`inodes, this`dbm, this`data
      ensures Formed()
      ensures match WfsOps.AddDentry(old(Image()), d, num, name)
        case Ok(fs') => r == Ok(0) && Image() == fs'
        case Err(e) => r == Err(e) && Image() == old(Image())
    {
      if !inodes[d].isDir { return Err(ENOTDIR); }
      var dup := DentryToNum(d, name);
      if dup.Ok? { return Err(EEXIST); }
      if |name| == 0 || |name| >= MAX_NAME { return Err(ENAMETOOLONG); }
      ghost var fs := Image();
      ghost var slot := FreeSlot(DirEnts(fs, d), 0);
      var idx := 0;
      while idx < SLOTS
        invariant 0 <= idx <= slot && Image() == fs && Formed()
      {
        assert DirEnts(fs, d)[idx] == DirEnt(fs, d, idx);
        if inodes[d].blocks[idx / PER_BLOCK] == 0 {
          var p := AllocateDataBlock(ZeroDents());
          if p == 0 { return Err(ENOSPC); }
          inodes := inodes[d := inodes[d].(blocks := inodes[d].blocks[idx / PER_BLOCK := p])];
          assert Image() == Attach(fs, d, idx / PER_BLOCK);
        }
        var p := inodes[d].blocks[idx / PER_BLOCK];
        var e := EntAt(data, p, idx % PER_BLOCK);
        if !Live(e) {
          StoreEntry(d, idx, Dentry(name, num));
          var needed := (idx + 1) * 32;
          if needed > inodes[d].size {
            inodes := inodes[d := inodes[d].(size := needed)];
          }
          assert Image() == Enter(fs, d, idx, Dentry(name, num));
          return Ok(0);
        }
        idx := idx + 1;
      }
      r := Err(ENOSPC);
    }

    /** Writing a directory entry in place. */
    method StoreEntry(d: nat, idx: nat, e: Dentry)
      requires Formed() && d < |inodes| && idx < SLOTS
      modifies this`data
      ensures Formed() && Image() == SetDent(old(Image()), d, idx, e)
    {
      var p := inodes[d].blocks[idx / PER_BLOCK];
      if 0 < p <= |data| && data[p - 1].Dents? && idx % PER_BLOCK < |data[p - 1].ent| {
        data := data[p - 1 := Dents(data[p - 1].ent[idx % PER_BLOCK := e])];
      }
    }

    /** remove_dentry; `Ok` carries the slot */
    method RemoveDentry(d: nat, i: nat) returns (r: Res<nat>)
      requires Formed() && d < |inodes| && ibm[d] && inodes[d].isDir
      requires forall k :: 0 <= k < SLOTS && DirEnt(Image(), d, k).num == i && i != 0 ==> k < inodes[d].size / 32
      modifies this`data
      ensures Formed()
      ensures var k := FindNum(DirEnts(old(Image()), d), i, 0);
        if k < SLOTS then r == Ok(k) && Image() == SetDent(old(Image()), d, k, FREE)
        else r == Err(ENOENT) && Image() == old(Image())
    {
      ghost var fs := Image();
      ghost var found := FindNum(DirEnts(fs, d), i, 0);
      var max := inodes[d].size / 32;
      var idx := 0;
      while idx < max
        invariant 0 <= idx <= max && (idx <= found || (found == SLOTS && idx >= SLOTS)) && Image() == fs
      {
        if idx / PER_BLOCK >= D_BLOCK { break; }
        var p := inodes[d].blocks[idx / PER_BLOCK];
        assert DirEnts(fs, d)[idx] == DirEnt(fs, d, idx);
        if p != 0 {
          var e := EntAt(data, p, idx % PER_BLOCK);
          if e.num == i && e.num != 0 {
            StoreEntry(d, idx, FREE);
            return Ok(idx);
          }
        }
        idx := idx + 1;
      }
      NumCovered(fs, d, i);
      r := Err(ENOENT);
    }

    /** wfs_mknod and wfs_mkdir; `Ok` carries the new inode's number */
    method Create(path: seq<string>, isDir: bool) returns (r: Res<nat>)
      requires Formed() && SizesCover(Image())
      modifies this
      ensures Formed() && (Image(), r) == WfsOps.Create(old(Image()), path, isDir)
    {
      if path == [] { return Err(EINVAL); }
      var name := path[|path| - 1];
      var parent := GetInode(path[..|path| - 1]);
      if parent.Err? { return Err(parent.error); }
      var d := parent.value;
      if !inodes[d].isDir { return Err(ENOTDIR); }
      var dup := DentryToNum(d, name);
      if dup.Ok? { return Err(EEXIST); }
      var i := AllocateBlock(ibm);
      if i < 0 { return Err(ENOSPC); }
      r := MakeInode(d, i, name, isDir);
    }

    /** The rest of wfs_mknod and wfs_mkdir: fill in inode `i`, count the link, add the entry, or undo. */
    method MakeInode(d: nat, i: nat, name: string, isDir: bool) returns (r: Res<nat>)
      requires Formed() && d < |inodes| && ibm[d] && inodes[d].isDir && i < |inodes| && !ibm[i]
      requires forall k :: 0 <= k < SLOTS && Live(DirEnt(Image(), d, k)) ==> k < inodes[d].size / 32
      modifies this
      ensures Formed()
      ensures match WfsOps.AddDentry(Announce(old(Image()), d, i, isDir), d, i, name)
        case Ok(fs') => r == Ok(i) && Image() == fs'
        case Err(e) => r == Err(e) && Image() == old(Image())
    {
      ghost var fs := Image();
      AllocateInode(d, i, isDir);
      ghost var fs1 := Announce(fs, d, i, isDir);
      assert forall k :: 0 <= k < SLOTS ==> DirEnt(fs1, d, k) == DirEnt(fs, d, k);
      var rc := AddDentry(d, i, name);
      if rc.Err? {
        FreeInode(i);
        if isDir { inodes := inodes[d := inodes[d].(nlinks := inodes[d].nlinks - 1)]; }
        assert inodes == fs.inodes && ibm == fs.ibm;
        return Err(rc.error);
      }
      r := Ok(i);
    }

    /** The inode's bit and its fresh contents, and the parent's link for a directory. */
    method AllocateInode(d: nat, i: nat, isDir: bool)
      requires Formed() && d < |inodes| && ibm[d] && i < |inodes| && i != d
      modifies this`ibm, this`inodes
      ensures Formed() && Image() == Announce(old(Image()), d, i, isDir)
    {
      ibm := ibm[i := true];
      inodes := inodes[i := Inode(isDir, 0, if isDir then 2 else 1, NoBlocks())];
      if isDir { inodes := inodes[d := inodes[d].(nlinks := inodes[d].nlinks + 1)]; }
    }

    /** free_inode */
    method FreeInode(i: nat)
      requires Formed() && 0 < i < |inodes|
      modifies this`ibm, this`inodes
      ensures Formed() && ibm == old(ibm)[i := false] && inodes == old(inodes)[i := ZeroInode()]
    {
      ibm := ibm[i := false];
      inodes := inodes[i := ZeroInode()];
    }

    /** free_block: the offset of a data block frees that block; an offset below the data blocks, inside one or past the
        last one is ignored. */
    method FreeBlock(off: int)
      requires Formed()
      modifies this`dbm, this`data
      ensures Formed() && |dbm| == |old(dbm)| == |old(data)|
      ensures forall n :: 0 <= n < |old(dbm)| && off == WfsImage.OffsetOf(old(Super()), n) ==>
        dbm == old(dbm)[n := false] && data == old(data)[n := ZeroRaw()]
      ensures (forall n :: 0 <= n < |old(dbm)| ==> off != WfsImage.OffsetOf(old(Super()), n)) ==>
        dbm == old(dbm) && data == old(data)
    {
      var sb := Super();
      if off < sb.dblocks { return; }
      var rel := off - sb.dblocks;
      if rel % BLOCK_SIZE != 0 { return; }
      var idx := rel / BLOCK_SIZE;
      if idx >= sb.blocks { return; }
      assert off == WfsImage.OffsetOf(sb, idx);
      dbm := dbm[idx := false];
      data := data[idx := ZeroRaw()];
    }

    /** free_block at the offset that block pointer `p` stands for */
    method FreePointer(p: nat)
      requires Formed() && 0 < p <= |data|
      modifies this`dbm, this`data
      ensures Formed() && dbm == old(dbm)[p - 1 := false] && data == old(data)[p - 1 := ZeroRaw()]
    {
      FreeBlock(WfsImage.OffsetOf(Super(), p - 1));
    }

    /** The direct pointers of inode `i`, returned one by one. */
    method FreeDirect(i: nat)
      requires Formed() && Ownership(Image()) && i < |inodes| && ibm[i]
      modifies this`inodes, this`dbm, this`data
      ensures Formed() && Swept(old(Image()), i, dbm, data, D_BLOCK, 0)
      ensures |inodes| == |old(inodes)| && inodes == old(inodes)[i := inodes[i]]
      ensures inodes[i].blocks[IND_BLOCK] == old(inodes[i].blocks[IND_BLOCK]) && Intact(old(Image()), i, data)
    {
      ghost var fs := Image();
      IndirectIntact(fs, i);
      var k := 0;
      while k < D_BLOCK
        invariant 0 <= k <= D_BLOCK && Formed() && Swept(fs, i, dbm, data, k, 0) && |inodes| == |fs.inodes|
        invariant inodes == fs.inodes[i := inodes[i]] && Intact(fs, i, data)
        invariant forall l :: k <= l < N_BLOCKS ==> inodes[i].blocks[l] == fs.inodes[i].blocks[l]
      {
        var p := inodes[i].blocks[k];
        assert p == PtrAt(fs, i, k);
        SweptStep(fs, i, dbm, data, k, 0, k);
        SoleOwner(fs, i, k, i, IND_BLOCK);
        if p != 0 {
          FreePointer(p);
          inodes := inodes[i := inodes[i].(blocks := inodes[i].blocks[k := 0])];
        }
        k := k + 1;
      }
    }

    /** The entries of the indirect block, then the block itself. */
    method FreeIndirect(i: nat, ghost fs: Fs)
      requires Formed() && Ownership(fs) && i < |inodes| && ibm[i] && fs.ibm == ibm && |fs.inodes| == |inodes|
      requires Swept(fs, i, dbm, data, D_BLOCK, 0) && Intact(fs, i, data)
      requires inodes[i].blocks[IND_BLOCK] == fs.inodes[i].blocks[IND_BLOCK]
      modifies this`inodes, this`dbm, this`data
      ensures Formed() && Swept(fs, i, dbm, data, N_BLOCKS, INDIRECT)
      ensures var q := fs.inodes[i].blocks[IND_BLOCK]; q != 0 ==> q <= |data| && data[q - 1] == ZeroRaw()
      ensures |inodes| == |old(inodes)| && inodes == old(inodes)[i := inodes[i]]
    {
      var q := inodes[i].blocks[IND_BLOCK];
      ghost var before := inodes;
      if q != 0 {
        ghost var entries := fs.data[q - 1].ptr;
        var j := 0;
        while j < INDIRECT
          invariant 0 <= j <= INDIRECT && Formed() && Swept(fs, i, dbm, data, D_BLOCK, j) && inodes == before
          invariant 0 < q <= |data| && data[q - 1].Ptrs? && |data[q - 1].ptr| == INDIRECT
          invariant forall l :: j <= l < INDIRECT ==> data[q - 1].ptr[l] == entries[l]
        {
          var p := data[q - 1].ptr[j];
          SweptStep(fs, i, dbm, data, D_BLOCK, j, N_BLOCKS + j);
          SoleOwner(fs, i, N_BLOCKS + j, i, IND_BLOCK);
          if p != 0 {
            FreePointer(p);
            data := data[q - 1 := Ptrs(data[q - 1].ptr[j := 0])];
          }
          j := j + 1;
        }
        SweptAll(fs, i, dbm, data);
        FreePointer(q);
        inodes := inodes[i := inodes[i].(blocks := inodes[i].blocks[IND_BLOCK := 0])];
      } else {
        SweptNone(fs, i, dbm, data);
      }
    }

    /** The end of wfs_unlink and wfs_rmdir: every block of inode `i`, then the inode. */
    method ReleaseInode(i: nat)
      requires Formed() && Ownership(Image()) && 0 < i < |inodes| && ibm[i]
      modifies this
      ensures Formed() && Image() == Release(old(Image()), i)
    {
      ghost var fs := Image();
      FreeDirect(i);
      FreeIndirect(i, fs);
      FreeInode(i);
      SweptIsRelease(fs, i, dbm, data);
    }

    /** wfs_unlink; `Ok` carries the inode's number */
    method Unlink(path: seq<string>) returns (r: Res<nat>)
      requires Formed() && Sound(Image())
      modifies this
      ensures Formed() && (Image(), r) == WfsOps.Unlink(old(Image()), path)
    {
      if path == [] { return Err(EINVAL); }
      var name := path[|path| - 1];
      if Dot(name) { return Err(EPERM); }
      var parent := GetInode(path[..|path| - 1]);
      if parent.Err? { return Err(parent.error); }
      var d := parent.value;
      if !inodes[d].isDir { return Err(ENOTDIR); }
      var child := DentryToNum(d, name);
      if child.Err? { return Err(child.error); }
      var i := child.value;
      if i >= |ibm| || !ibm[i] { return Err(ENOENT); }
      if inodes[i].isDir { return Err(EISDIR); }
      ChildNamed(Image(), d, name);
      Entries(Image(), d, i);
      r := DropFile(d, i);
    }

    /** The entry and the last link of file `i`, and with it the file. */
    method DropFile(d: nat, i: nat) returns (r: Res<nat>)
      requires Formed() && Ownership(Image()) && d < |inodes| && ibm[d] && inodes[d].isDir
      requires 0 < i < |inodes| && ibm[i] && !inodes[i].isDir
      requires forall k :: 0 <= k < SLOTS && DirEnt(Image(), d, k).num == i && i != 0 ==> k < inodes[d].size / 32
      modifies this
      ensures Formed()
      ensures var fs := old(Image()); var k := FindNum(DirEnts(fs, d), i, 0);
        if k == SLOTS then Image() == fs && r == Err(ENOENT)
        else if fs.inodes[i].nlinks - 1 <= 0 then Image() == Drop(fs, d, k, i) && r == Ok(i)
        else var fs1 := SetDent(fs, d, k, FREE);
          Image() == SetHeader(fs1, i, fs1.inodes[i].size, fs1.inodes[i].nlinks - 1) && r == Ok(i)
    {
      ghost var fs := Image();
      var slot := RemoveDentry(d, i);
      if slot.Err? { return Err(slot.error); }
      assert DirEnt(fs, d, slot.value).num == i;
      SetDentOwnership(fs, d, slot.value, FREE);
      inodes := inodes[i := inodes[i].(nlinks := inodes[i].nlinks - 1)];
      if inodes[i].nlinks <= 0 {
        ghost var fs1 := SetDent(fs, d, slot.value, FREE);
        SetHeaderOwnership(fs1, i, fs1.inodes[i].size, fs1.inodes[i].nlinks - 1);
        ReleaseInode(i);
        ReleaseLinks(fs1, i, fs1.inodes[i].nlinks - 1);
      }
      r := Ok(i);
    }

    /** The entry of directory `i`, its link to the parent, and the directory itself. */
    method DropDir(d: nat, i: nat) returns (r: Res<nat>)
      requires Formed() && Ownership(Image()) && d < |inodes| && ibm[d] && inodes[d].isDir
      requires 0 < i < |inodes| && ibm[i] && inodes[i].isDir
      requires forall k :: 0 <= k < SLOTS && DirEnt(Image(), d, k).num == i && i != 0 ==> k < inodes[d].size / 32
      modifies this
      ensures Formed()
      ensures var fs := old(Image()); var k := FindNum(DirEnts(fs, d), i, 0);
        if k == SLOTS then Image() == fs && r == Err(ENOENT) else Image() == Drop(fs, d, k, i) && r == Ok(i)
    {
      ghost var fs := Image();
      var slot := RemoveDentry(d, i);
      if slot.Err? { return Err(slot.error); }
      assert DirEnt(fs, d, slot.value).num == i;
      SetDentOwnership(fs, d, slot.value, FREE);
      ghost var fs1 := SetDent(fs, d, slot.value, FREE);
      SetHeaderOwnership(fs1, d, fs1.inodes[d].size, fs1.inodes[d].nlinks - 1);
      inodes := inodes[d := inodes[d].(nlinks := inodes[d].nlinks - 1)];
      ReleaseInode(i);
      r := Ok(i);
    }

    /** wfs_rmdir */
    method RmDir(path: seq<string>) returns (r: Res<nat>)
      requires Formed() && Sound(Image())
      modifies this
      ensures Formed() && (Image(), r) == WfsOps.RmDir(old(Image()), path)
    {
      if path == [] { return Err(EBUSY); }
      var name := path[|path| - 1];
      var parent := GetInode(path[..|path| - 1]);
      if parent.Err? { return Err(parent.error); }
      var d := parent.value;
      if !inodes[d].isDir { return Err(ENOTDIR); }
      var child := DentryToNum(d, name);
      if child.Err? { return Err(child.error); }
      var i := child.value;
      if i >= |ibm| || !ibm[i] { return Err(ENOENT); }
      if !inodes[i].isDir { return Err(ENOTDIR); }
      var empty := IsEmpty(i);
      if !empty { return Err(ENOTEMPTY); }
      ChildNamed(Image(), d, name);
      Entries(Image(), d, i);
      r := DropDir(d, i);
    }

    /** The scan of wfs_rmdir */
    method IsEmpty(d: nat) returns (empty: bool)
      requires Formed() && d < |inodes| && ibm[d] && inodes[d].isDir
      requires forall k :: 0 <= k < SLOTS && Live(DirEnt(Image(), d, k)) ==> k < inodes[d].size / 32
      ensures empty == LooksEmpty(DirEnts(Image(), d))
    {
      var max := inodes[d].size / 32;
      var idx := 0;
      while idx < max
        invariant 0 <= idx <= max
        invariant forall k :: 0 <= k < idx && k < SLOTS && Live(DirEnt(Image(), d, k)) ==>
          Dot(DirEnt(Image(), d, k).name)
      {
        if idx / PER_BLOCK >= D_BLOCK { break; }
        var p := inodes[d].blocks[idx / PER_BLOCK];
        if p != 0 {
          var e := EntAt(data, p, idx % PER_BLOCK);
          assert e == DirEnt(Image(), d, idx) == DirEnts(Image(), d)[idx];
          if Live(e) && !Dot(e.name) { return false; }
        }
        idx := idx + 1;
      }
      empty := true;
    }

    /** One pointer of file `i`, filled on demand. */
    method Fill(i: nat, k: nat) returns (p: nat)
      requires Formed() && Ownership(Image()) && IsFile(Image(), i) && k < POSITIONS && k != D_BLOCK
      requires k >= N_BLOCKS ==> inodes[i].blocks[IND_BLOCK] != 0
      modifies this`inodes, this`dbm, this`data
      ensures Formed() && (Image(), p) == Filled(old(Image()), i, k)
    {
      ghost var fs := Image();
      assert PtrOk(fs, i, k) && PtrOk(fs, i, IND_BLOCK);
      if k < N_BLOCKS {
        p := inodes[i].blocks[k];
        if p == 0 {
          p := AllocateDataBlock(if k == IND_BLOCK then ZeroPtrs() else ZeroRaw());
          if p == 0 { return; }
          inodes := inodes[i := inodes[i].(blocks := inodes[i].blocks[k := p])];
        }
      } else {
        var q := inodes[i].blocks[IND_BLOCK];
        p := data[q - 1].ptr[k - N_BLOCKS];
        if p == 0 {
          p := AllocateDataBlock(ZeroRaw());
          if p == 0 { return; }
          data := data[q - 1 := Ptrs(data[q - 1].ptr[k - N_BLOCKS := p])];
        }
      }
    }

    /** data_offset with `alloc` set, as the block that holds the byte; 0 stands for NULL. */
    method DataOffsetAlloc(i: nat, off: nat) returns (p: nat)
      requires Formed() && Ownership(Image()) && IsFile(Image(), i)
      modifies this`inodes, this`dbm, this`data
      ensures Formed() && (Image(), p) == EnsureBlock(old(Image()), i, off / BLOCK_SIZE)
    {
      var n := off / BLOCK_SIZE;
      if n >= MAX_BLOCKS { return 0; }
      if n < D_BLOCK {
        p := Fill(i, n);
      } else {
        FilledGrows(Image(), i, IND_BLOCK);
        var q := Fill(i, IND_BLOCK);
        if q == 0 { return 0; }
        p := Fill(i, N_BLOCKS + (n - D_BLOCK));
      }
    }

    /** data_offset with `alloc` clear */
    method DataOffset(i: nat, off: nat) returns (p: nat)
      requires Formed() && Ownership(Image()) && IsFile(Image(), i)
      ensures p == if off / BLOCK_SIZE < MAX_BLOCKS then PtrAt(Image(), i, PosOf(off / BLOCK_SIZE)) else 0
    {
      var n := off / BLOCK_SIZE;
      if n >= MAX_BLOCKS { return 0; }
      if n < D_BLOCK { return inodes[i].blocks[n]; }
      var q := inodes[i].blocks[IND_BLOCK];
      if q == 0 { return 0; }
      assert PtrOk(Image(), i, IND_BLOCK);
      p := data[q - 1].ptr[n - D_BLOCK];
    }

    /** wfs_read after the path is resolved */
    method ReadAt(i: nat, off: nat, len: nat) returns (r: Res<seq<Byte>>)
      requires Formed() && Ownership(Image()) && i < |inodes| && ibm[i]
      ensures r == ReadFile(Image(), i, off, len)
    {
      if inodes[i].isDir { return Err(EISDIR); }
      if off >= inodes[i].size { return Ok([]); }
      var toRead := if off + len > inodes[i].size then inodes[i].size - off else len;
      var buf: seq<Byte> := [];
      while |buf| < toRead
        invariant |buf| <= toRead && buf == BytesAt(Image(), i, off, |buf|)
      {
        var cur := off + |buf|;
        var chunk := ChunkLen(cur, toRead - |buf|);
        var p := DataOffset(i, cur);
        ChunkBytes(Image(), i, cur, chunk);
        BytesJoin(Image(), i, off, |buf|, chunk);
        if p == 0 {
          buf := buf + seq(chunk, _ => 0);
        } else {
          buf := buf + data[p - 1].bytes[cur % BLOCK_SIZE..cur % BLOCK_SIZE + chunk];
        }
      }
      r := Ok(buf);
    }

    /** One turn of the write loop; 0 when no block could be had. */
    method PutChunk(i: nat, off: nat, buf: seq<Byte>) returns (chunk: nat)
      requires Formed() && Ownership(Image()) && IsFile(Image(), i) && buf != []
      modifies this`inodes, this`dbm, this`data
      ensures Formed() && (Image(), chunk) == WriteChunk(old(Image()), i, off, buf)
      ensures chunk == 0 ==> off / BLOCK_SIZE >= MAX_BLOCKS || FirstFree(dbm, 0) == |dbm|
    {
      ghost var fs := Image();
      chunk := ChunkLen(off, |buf|);
      var p := DataOffsetAlloc(i, off);
      if p == 0 {
        NoBlock(fs, i, off / BLOCK_SIZE);
        return 0;
      }
      StoreChunk(p, off % BLOCK_SIZE, buf[..chunk]);
    }

    /** The write loop; stops early when no block could be had. */
    method CopyIn(i: nat, off: nat, buf: seq<Byte>) returns (done: nat)
      requires Formed() && Ownership(Image()) && IsFile(Image(), i)
      modifies this`inodes, this`dbm, this`data
      ensures Formed() && (Image(), done) == WriteLoop(old(Image()), i, off, buf)
    {
      ghost var total := WriteLoop(Image(), i, off, buf);
      done := 0;
      assert buf[0..] == buf;
      while done < |buf|
        invariant Formed() && done <= |buf| && Ownership(Image()) && IsFile(Image(), i)
        invariant LeadsTo(total, Image(), i, off, buf, done)
      {
        var chunk := CopyChunk(i, off, buf, done, total);
        if chunk == 0 { return; }
        assert LeadsTo(total, Image(), i, off, buf, done + chunk);
        done := done + chunk;
      }
    }

    /** The turn keeps the ownership of blocks. */
    method PutOwned(i: nat, off: nat, buf: seq<Byte>) returns (chunk: nat)
      requires Formed() && Ownership(Image()) && IsFile(Image(), i) && buf != []
      modifies this`inodes, this`dbm, this`data
      ensures Formed() && (Image(), chunk) == WriteChunk(old(Image()), i, off, buf)
      ensures Ownership(Image()) && IsFile(Image(), i) && chunk <= |buf|
    {
      ghost var after, c := ChunkProgress(Image(), i, off, buf);
      chunk := PutChunk(i, off, buf);
      assert Image() == after;
    }

    /** One turn of the write loop. */
    method CopyChunk(i: nat, off: nat, buf: seq<Byte>, done: nat, ghost total: (Fs, nat)) returns (chunk: nat)
      requires Formed() && Ownership(Image()) && IsFile(Image(), i) && done < |buf|
      requires LeadsTo(total, Image(), i, off, buf, done)
      modifies this`inodes, this`dbm, this`data
      ensures Formed() && Ownership(Image()) && IsFile(Image(), i) && done + chunk <= |buf|
      ensures if chunk == 0 then total == (Image(), done) else LeadsTo(total, Image(), i, off, buf, done + chunk)
    {
      ghost var before := Image();
      chunk := PutOwned(i, off + done, buf[done..]);
      LoopTurn(total, before, i, off, buf, done, Image(), chunk);
    }

    /** wfs_write after the path is resolved */
    method WriteAt(i: nat, off: nat, buf: seq<Byte>) returns (r: Res<nat>)
      requires Formed() && Ownership(Image()) && IsFile(Image(), i)
      modifies this`inodes, this`dbm, this`data
      ensures Formed() && (Image(), r) == WriteFile(old(Image()), i, off, buf)
    {
      var done := CopyIn(i, off, buf);
      if done < |buf| { return Err(ENOSPC); }
      ghost var mid := Image();
      if off + done > inodes[i].size {
        inodes := inodes[i := inodes[i].(size := off + done)];
      }
      assert Image() == Resized(mid, i, off + |buf|);
      r := Ok(done);
    }

    /** wfs_write */
    method Write(path: seq<string>, off: nat, buf: seq<Byte>) returns (r: Res<nat>)
      requires Formed() && Ownership(Image()) && SizesCover(Image())
      modifies this`inodes, this`dbm, this`data
      ensures Formed() && (Image(), r) == WfsTheorems.Write(old(Image()), path, off, buf)
    {
      var d := GetInode(path);
      if d.Err? { return Err(d.error); }
      if inodes[d.value].isDir { return Err(EISDIR); }
      r := WriteAt(d.value, off, buf);
    }

    /** wfs_read */
    method Read(path: seq<string>, off: nat, len: nat) returns (r: Res<seq<Byte>>)
      requires Formed() && Ownership(Image()) && SizesCover(Image())
      ensures r == match Locate(Image(), path) { case Err(e) => Err(e) case Ok(i) => ReadFile(Image(), i, off, len) }
    {
      var d := GetInode(path);
      if d.Err? { return Err(d.error); }
      r := ReadAt(d.value, off, len);
    }

    /** memcpy into a data block */
    method StoreChunk(p: nat, at: nat, src: seq<Byte>)
      requires Formed()
      modifies this`data
      ensures Formed() && Image() == Store(old(Image()), p, at, src)
    {
      if 0 < p <= |data| && data[p - 1].Raw? && at + |src| <= |data[p - 1].bytes| {
        data := data[p - 1 := Raw(data[p - 1].bytes[..at] + src + data[p - 1].bytes[at + |src|..])];
      }
    }
  }

  /** A walk stops at the first component that fails. */
  lemma {:induction false} LocateFails(fs: Fs, path: seq<string>, k: nat)
    requires WellFormed(fs) && 0 < |fs.ibm| && k <= |path| && Locate(fs, path[..k]).Err?
    ensures Locate(fs, path) == Locate(fs, path[..k])
    decreases |path|
  {
    if k == |path| {
      assert path[..k] == path;
    } else {
      var init := path[..|path| - 1];
      assert init[..k] == path[..k];
      LocateFails(fs, init, k);
    }
  }

  /** A live name lies below the size, so a scan by size cannot miss it. */
  lemma NameCovered(fs: Fs, d: int, name: string)
    requires WellFormed(fs) && 0 <= d < |fs.inodes|
    requires forall k :: 0 <= k < SLOTS && Live(DirEnt(fs, d, k)) ==> k < fs.inodes[d].size / 32
    ensures var k := FindName(DirEnts(fs, d), name, 0); k < SLOTS ==> k < fs.inodes[d].size / 32
  {
    var k := FindName(DirEnts(fs, d), name, 0);
    if k < SLOTS { assert Live(DirEnt(fs, d, k)); }
  }

  lemma NumCovered(fs: Fs, d: int, i: nat)
    requires WellFormed(fs) && 0 <= d < |fs.inodes|
    requires forall k :: 0 <= k < SLOTS && DirEnt(fs, d, k).num == i && i != 0 ==> k < fs.inodes[d].size / 32
    ensures var k := FindNum(DirEnts(fs, d), i, 0); k < SLOTS ==> k < fs.inodes[d].size / 32
  {
    var k := FindNum(DirEnts(fs, d), i, 0);
    if k < SLOTS { assert DirEnt(fs, d, k).num == i; }
  }

  // ---- Sweeping the blocks of an inode ----

  /** Some position below `direct`, or among the first `ind` indirect entries, holds `p`. */
  ghost predicate PtrIn(fs: Fs, i: int, p: int, direct: nat, ind: nat)
    requires WellFormed(fs) && 0 <= i < |fs.inodes| && direct <= N_BLOCKS && ind <= INDIRECT
  {
    exists k :: (0 <= k < direct || N_BLOCKS <= k < N_BLOCKS + ind) && PtrAt(fs, i, k) == p
  }

  /** The bitmap and blocks of `fs` after the blocks at those positions were returned; the indirect block of
      `i` may have been overwritten. */
  ghost predicate Swept(fs: Fs, i: int, dbm: seq<bool>, data: seq<Block>, direct: nat, ind: nat) {
    && WellFormed(fs) && 0 <= i < |fs.inodes| && direct <= N_BLOCKS && ind <= INDIRECT
    && |dbm| == |fs.dbm| && |data| == |fs.data|
    && (forall b :: 0 <= b < |dbm| ==> dbm[b] == (fs.dbm[b] && !PtrIn(fs, i, b + 1, direct, ind)))
    && (forall b :: 0 <= b < |data| && b + 1 != fs.inodes[i].blocks[IND_BLOCK] ==>
          data[b] == if PtrIn(fs, i, b + 1, direct, ind) then ZeroRaw() else fs.data[b])
  }

  lemma PtrInStep(fs: Fs, i: int, p: int, direct: nat, ind: nat, k: nat)
    requires WellFormed(fs) && 0 <= i < |fs.inodes| && direct <= N_BLOCKS && ind <= INDIRECT
    requires (k == direct < N_BLOCKS) || (k == N_BLOCKS + ind && ind < INDIRECT)
    ensures PtrIn(fs, i, p, if k < N_BLOCKS then direct + 1 else direct, if k < N_BLOCKS then ind else ind + 1) ==
      (PtrIn(fs, i, p, direct, ind) || PtrAt(fs, i, k) == p)
  {
    var direct', ind' := if k < N_BLOCKS then direct + 1 else direct, if k < N_BLOCKS then ind else ind + 1;
    if PtrIn(fs, i, p, direct, ind) {
      var l :| (0 <= l < direct || N_BLOCKS <= l < N_BLOCKS + ind) && PtrAt(fs, i, l) == p;
      assert PtrAt(fs, i, l) == p;
    }
    if PtrIn(fs, i, p, direct', ind') {
      var l :| (0 <= l < direct' || N_BLOCKS <= l < N_BLOCKS + ind') && PtrAt(fs, i, l) == p;
      assert l != k ==> PtrIn(fs, i, p, direct, ind);
    }
  }

  /** Returning the block at the next position. */
  lemma SweptStep(fs: Fs, i: int, dbm: seq<bool>, data: seq<Block>, direct: nat, ind: nat, k: nat)
    requires Swept(fs, i, dbm, data, direct, ind) && Ownership(fs) && fs.ibm[i]
    requires (k == direct < N_BLOCKS) || (k == N_BLOCKS + ind && ind < INDIRECT)
    ensures var p := PtrAt(fs, i, k); var direct' := if k < N_BLOCKS then direct + 1 else direct;
      && p <= |data|
      && (if p == 0 then Swept(fs, i, dbm, data, direct', if k < N_BLOCKS then ind else ind + 1)
          else Swept(fs, i, dbm[p - 1 := false], data[p - 1 := ZeroRaw()], direct',
                     if k < N_BLOCKS then ind else ind + 1))
  {
    assert PtrOk(fs, i, k);
    var direct', ind' := if k < N_BLOCKS then direct + 1 else direct, if k < N_BLOCKS then ind else ind + 1;
    forall b ensures PtrIn(fs, i, b, direct', ind') == (PtrIn(fs, i, b, direct, ind) || PtrAt(fs, i, k) == b) {
      PtrInStep(fs, i, b, direct, ind, k);
    }
  }

  /** The indirect block of inode `i`, if there is one, is as it was. */
  predicate Intact(fs: Fs, i: int, data: seq<Block>)
    requires WellFormed(fs) && 0 <= i < |fs.inodes|
  {
    var q := fs.inodes[i].blocks[IND_BLOCK];
    q != 0 ==>
      && q <= |data| && q <= |fs.data| && data[q - 1] == fs.data[q - 1]
      && data[q - 1].Ptrs? && |data[q - 1].ptr| == INDIRECT
  }

  lemma IndirectIntact(fs: Fs, i: int)
    requires Ownership(fs) && 0 <= i < |fs.inodes| && fs.ibm[i]
    ensures Intact(fs, i, fs.data)
  {
    assert PtrOk(fs, i, IND_BLOCK);
  }

  lemma SweptAll(fs: Fs, i: int, dbm: seq<bool>, data: seq<Block>)
    requires Ownership(fs) && Swept(fs, i, dbm, data, D_BLOCK, INDIRECT) && fs.ibm[i]
    requires fs.inodes[i].blocks[IND_BLOCK] != 0
    ensures var q := fs.inodes[i].blocks[IND_BLOCK];
      q <= |data| && Swept(fs, i, dbm[q - 1 := false], data[q - 1 := ZeroRaw()], N_BLOCKS, INDIRECT)
  {
    assert PtrOk(fs, i, D_BLOCK);
    SweptStep(fs, i, dbm, data, D_BLOCK, INDIRECT, D_BLOCK);
    SweptStep(fs, i, dbm, data, IND_BLOCK, INDIRECT, IND_BLOCK);
  }

  lemma SweptNone(fs: Fs, i: int, dbm: seq<bool>, data: seq<Block>)
    requires Ownership(fs) && Swept(fs, i, dbm, data, D_BLOCK, 0) && fs.ibm[i] && fs.inodes[i].blocks[IND_BLOCK] == 0
    ensures Swept(fs, i, dbm, data, N_BLOCKS, INDIRECT)
  {
    assert PtrOk(fs, i, D_BLOCK);
    forall p | p != 0 ensures PtrIn(fs, i, p, N_BLOCKS, INDIRECT) == PtrIn(fs, i, p, D_BLOCK, 0) {
      if PtrIn(fs, i, p, D_BLOCK, 0) {
        var l :| 0 <= l < D_BLOCK && PtrAt(fs, i, l) == p;
        assert PtrAt(fs, i, l) == p;
      }
    }
  }

  lemma SweptIsRelease(fs: Fs, i: int, dbm: seq<bool>, data: seq<Block>)
    requires Swept(fs, i, dbm, data, N_BLOCKS, INDIRECT)
    requires var q := fs.inodes[i].blocks[IND_BLOCK]; q != 0 ==> q <= |data| && data[q - 1] == ZeroRaw()
    ensures dbm == Release(fs, i).dbm && data == Release(fs, i).data
  {
    forall p ensures PtrIn(fs, i, p, N_BLOCKS, INDIRECT) == HasPtr(fs, i, p) {
      if HasPtr(fs, i, p) {
        var l :| 0 <= l < POSITIONS && PtrAt(fs, i, l) == p;
        assert PtrAt(fs, i, l) == p;
      }
    }
    assert PtrAt(fs, i, IND_BLOCK) == fs.inodes[i].blocks[IND_BLOCK];
  }

  /** An entry that names inode `i` lies below the directory's size. */
  lemma Entries(fs: Fs, d: int, i: int)
    requires Sound(fs) && 0 <= d < |fs.inodes| && fs.ibm[d] && fs.inodes[d].isDir
    ensures forall k :: 0 <= k < SLOTS && DirEnt(fs, d, k).num == i && i != 0 ==> k < fs.inodes[d].size / 32
  {
    assert Tidy(NsOf(fs).ents[d]);
    forall k | 0 <= k < SLOTS && DirEnt(fs, d, k).num == i && i != 0 ensures k < fs.inodes[d].size / 32 {
      assert NsOf(fs).ents[d][k] == DirEnt(fs, d, k);
    }
  }

  /** A released inode's link count is gone anyway. */
  lemma ReleaseLinks(fs: Fs, i: int, nlinks: int)
    requires WellFormed(fs) && 0 <= i < |fs.inodes| && fs.ibm[i]
    ensures Release(SetHeader(fs, i, fs.inodes[i].size, nlinks), i) == Release(fs, i)
  {
    var fs1 := SetHeader(fs, i, fs.inodes[i].size, nlinks);
    assert forall k :: 0 <= k < POSITIONS ==> PtrAt(fs1, i, k) == PtrAt(fs, i, k);
    DropPointers(fs, fs, fs1, i);
  }

  // ---- Chunks ----

  /** The bytes of a range inside one block, as the block (or its absence) gives them. */
  lemma ChunkBytes(fs: Fs, i: int, off: nat, chunk: nat)
    requires Ownership(fs) && IsFile(fs, i) && off % BLOCK_SIZE + chunk <= BLOCK_SIZE
    ensures var n := off / BLOCK_SIZE; var at := off % BLOCK_SIZE;
      var p := if n < MAX_BLOCKS then PtrAt(fs, i, PosOf(n)) else 0;
      if p == 0 then BytesAt(fs, i, off, chunk) == seq(chunk, _ => 0)
      else && p <= |fs.data| && fs.data[p - 1].Raw? && |fs.data[p - 1].bytes| == BLOCK_SIZE
           && BytesAt(fs, i, off, chunk) == fs.data[p - 1].bytes[at..at + chunk]
  {
    var n, at := off / BLOCK_SIZE, off % BLOCK_SIZE;
    forall x | 0 <= x < chunk
      ensures BytesAt(fs, i, off, chunk)[x] ==
        if n < MAX_BLOCKS then RawByte(fs.data, PtrAt(fs, i, PosOf(n)), at + x) else 0
    {
      assert (off + x) / BLOCK_SIZE == n && (off + x) % BLOCK_SIZE == at + x;
    }
    if n < MAX_BLOCKS { assert PtrOk(fs, i, PosOf(n)); }
  }

  lemma BytesJoin(fs: Fs, i: int, off: nat, a: nat, b: nat)
    requires IsFile(fs, i)
    ensures BytesAt(fs, i, off, a) + BytesAt(fs, i, off + a, b) == BytesAt(fs, i, off, a + b)
  {
  }

  /** A loop that is at `mid` with `done` bytes stored will end as `total` says. */
  predicate LeadsTo(total: (Fs, nat), mid: Fs, i: int, off: nat, buf: seq<Byte>, done: nat)
    requires IsFile(mid, i) && done <= |buf|
  {
    total == Later(done, WriteLoop(mid, i, off + done, buf[done..]))
  }

  lemma LoopTurn(total: (Fs, nat), mid: Fs, i: int, off: nat, buf: seq<Byte>, done: nat, mid': Fs, c: nat)
    requires IsFile(mid, i) && done < |buf| && LeadsTo(total, mid, i, off, buf, done)
    requires (mid', c) == WriteChunk(mid, i, off + done, buf[done..])
    ensures IsFile(mid', i) && done + c <= |buf|
    ensures if c == 0 then total == (mid', done) else LeadsTo(total, mid', i, off, buf, done + c)
  {
    LoopUnfolds(mid, i, off + done, buf[done..], mid', c);
    assert buf[done..][c..] == buf[done + c..];
  }

  /** data_offset fails only beyond the largest file or on a full disk. */
  lemma NoBlock(fs: Fs, i: int, n: nat)
    requires IsFile(fs, i) && EnsureBlock(fs, i, n).1 == 0
    ensures n >= MAX_BLOCKS || FirstFree(EnsureBlock(fs, i, n).0.dbm, 0) == |EnsureBlock(fs, i, n).0.dbm|
  {
  }
}
