/** The WFS namespace without its blocks: which inodes are in use, their kinds and link counts, and
    the directory entries.  Creating and removing an entry keep it a tree. */
module WfsNames {
  import opened Helpers

  const MAX_NAME: nat := 28
  const SLOTS: nat := 96 // D_BLOCK * (BLOCK_SIZE / sizeof(struct wfs_dentry))

  datatype Dentry = Dentry(name: string, num: nat)

  const FREE: Dentry := Dentry("", 0)

  predicate Live(e: Dentry) {
    e.num != 0 && e.name != ""
  }

  /** Kinds, links and entries of unused inodes (and entries of files) are blank. */
  datatype Ns = Ns(used: seq<bool>, dir: seq<bool>, links: seq<int>, ents: seq<seq<Dentry>>)

  /** The entries of an empty directory. */
  predicate Blank(es: seq<Dentry>) {
    |es| == SLOTS && forall k :: 0 <= k < SLOTS ==> es[k] == FREE
  }

  predicate IsDir(ns: Ns, d: int) {
    0 <= d < |ns.used| && d < |ns.dir| && ns.used[d] && ns.dir[d]
  }

  predicate Shape(ns: Ns) {
    && |ns.dir| == |ns.used| && |ns.links| == |ns.used| && |ns.ents| == |ns.used|
    && (forall d :: 0 <= d < |ns.used| ==> |ns.ents[d]| == SLOTS)
    && (forall d :: 0 <= d < |ns.used| && !IsDir(ns, d) ==> Blank(ns.ents[d]))
    && (forall d :: 0 <= d < |ns.used| && !ns.used[d] ==> !ns.dir[d] && ns.links[d] == 0)
    && IsDir(ns, 0)
  }

  /** The first live entry called `name` at or after slot `k`, or the length. */
  function FindName(es: seq<Dentry>, name: string, k: nat): (r: nat)
    requires k <= |es|
    ensures k <= r <= |es|
    ensures r < |es| ==> Live(es[r]) && es[r].name == name
    ensures forall j :: k <= j < r ==> !(Live(es[j]) && es[j].name == name)
    decreases |es| - k
  {
    if k == |es| || (Live(es[k]) && es[k].name == name) then k else FindName(es, name, k + 1)
  }

  function Lookup(ns: Ns, d: int, name: string): Option<nat>
    requires Shape(ns)
  {
    if !IsDir(ns, d) then None else
      var k := FindName(ns.ents[d], name, 0);
      if k < SLOTS && ns.ents[d][k].num < |ns.used| && ns.used[ns.ents[d][k].num] then Some(ns.ents[d][k].num) else None
  }

  /** Walk a path (a list of components) from the root. */
  function Resolve(ns: Ns, p: seq<string>): Option<nat>
    requires Shape(ns)
    decreases |p|
  {
    if p == [] then Some(0) else
    match Resolve(ns, p[..|p| - 1])
    case None => None
    case Some(d) => Lookup(ns, d, p[|p| - 1])
  }

  /** Slot `k` of directory `d` is live and names inode `i`. */
  predicate Named(ns: Ns, d: int, k: int, i: int)
    requires Shape(ns)
  {
    IsDir(ns, d) && 0 <= k < SLOTS && Live(ns.ents[d][k]) && ns.ents[d][k].num == i
  }

  function Subdirs(dir: seq<bool>, es: seq<Dentry>, n: nat): nat
    requires n <= |es|
  {
    if n == 0 then 0 else
      Subdirs(dir, es, n - 1) + (if Live(es[n - 1]) && es[n - 1].num < |dir| && dir[es[n - 1].num] then 1 else 0)
  }

  predicate GoodEntry(ns: Ns, e: Dentry) {
    Live(e) ==> e.num < |ns.used| && ns.used[e.num] && |e.name| < MAX_NAME
  }

  ghost predicate EntriesGood(ns: Ns)
    requires Shape(ns)
  {
    forall d, k :: IsDir(ns, d) && 0 <= k < SLOTS ==> GoodEntry(ns, ns.ents[d][k])
  }

  /** Live names differ, and slots that are not live are blank. */
  predicate Tidy(es: seq<Dentry>) {
    && (forall k :: 0 <= k < |es| ==> Live(es[k]) || es[k] == FREE)
    && forall k, l :: 0 <= k < l < |es| && Live(es[k]) && Live(es[l]) ==> es[k].name != es[l].name
  }

  /** No inode has two entries. */
  ghost predicate OneEntryEach(ns: Ns)
    requires Shape(ns)
  {
    forall d, k, d', k', i :: Named(ns, d, k, i) && Named(ns, d', k', i) ==> d == d' && k == k'
  }

  ghost predicate Reachable(ns: Ns, i: int)
    requires Shape(ns)
  {
    exists p :: Resolve(ns, p) == Some(i)
  }

  function ExpectedLinks(ns: Ns, i: int): int
    requires Shape(ns) && 0 <= i < |ns.used|
  {
    if !ns.dir[i] then 1 else (if i == 0 then 1 else 2) + Subdirs(ns.dir, ns.ents[i], SLOTS)
  }

  /** Entries lead to used inodes, names and entries are unique, and link counts are right. */
  ghost predicate Linked(ns: Ns) {
    && Shape(ns)
    && EntriesGood(ns)
    && (forall d :: 0 <= d < |ns.used| ==> Tidy(ns.ents[d]))
    && OneEntryEach(ns)
    && (forall i :: 0 <= i < |ns.used| && ns.used[i] ==> ns.links[i] == ExpectedLinks(ns, i))
  }

  /** The namespace is a tree rooted at inode 0. */
  ghost predicate Tree(ns: Ns) {
    Linked(ns) && forall i {:trigger Reachable(ns, i)} :: 0 <= i < |ns.used| && ns.used[i] ==> Reachable(ns, i)
  }

  // ---- Consequences ----

  lemma FindNameAt(es: seq<Dentry>, k: nat)
    requires k < |es| && Live(es[k]) && Tidy(es)
    ensures FindName(es, es[k].name, 0) == k
  {
  }

  /** A successful lookup went through exactly one live entry. */
  lemma LookupNamed(ns: Ns, d: int, name: string)
    requires Shape(ns) && Lookup(ns, d, name).Some?
    ensures var k := FindName(ns.ents[d], name, 0);
      Named(ns, d, k, Lookup(ns, d, name).value) && ns.ents[d][k].name == name
  {
  }

  lemma SameLast<T>(p: seq<T>, q: seq<T>)
    requires p != [] && q != [] && p[..|p| - 1] == q[..|q| - 1] && p[|p| - 1] == q[|q| - 1]
    ensures p == q
  {
    assert p == p[..|p| - 1] + [p[|p| - 1]];
    assert q == q[..|q| - 1] + [q[|q| - 1]];
  }

  /** The last step of a resolved path is a live entry. */
  lemma LastStep(ns: Ns, p: seq<string>) returns (d: nat, k: nat)
    requires Shape(ns) && p != [] && Resolve(ns, p).Some?
    ensures Resolve(ns, p[..|p| - 1]) == Some(d)
    ensures Named(ns, d, k, Resolve(ns, p).value) && ns.ents[d][k].name == p[|p| - 1]
    ensures Resolve(ns, p).value > 0
  {
    d := Resolve(ns, p[..|p| - 1]).value;
    k := FindName(ns.ents[d], p[|p| - 1], 0);
    LookupNamed(ns, d, p[|p| - 1]);
  }

  /** No inode has two paths. */
  lemma {:induction false} OnePath(ns: Ns, p: seq<string>, q: seq<string>)
    requires Linked(ns) && Resolve(ns, p).Some? && Resolve(ns, p) == Resolve(ns, q)
    ensures p == q
    decreases |p|
  {
    if p == [] {
      if q != [] { var e, l := LastStep(ns, q); }
    } else {
      var d, k := LastStep(ns, p);
      if q != [] {
        var e, l := LastStep(ns, q);
        OnePath(ns, p[..|p| - 1], q[..|q| - 1]);
        SameLast(p, q);
      }
    }
  }

  /** Every used inode but the root has exactly one entry; the root has none. */
  lemma ExactlyOneEntry(ns: Ns, i: int) returns (d: int, k: int)
    requires Tree(ns) && 0 < i < |ns.used| && ns.used[i]
    ensures Named(ns, d, k, i) && forall e, l :: Named(ns, e, l, i) ==> e == d && l == k
  {
    assert Reachable(ns, i);
    var p :| Resolve(ns, p) == Some(i);
    d, k := LastStep(ns, p);
  }

  // ---- Counting subdirectories ----

  function Counts(dir: seq<bool>, e: Dentry): nat {
    if Live(e) && e.num < |dir| && dir[e.num] then 1 else 0
  }

  lemma {:induction false} SubdirsSet(dir: seq<bool>, es: seq<Dentry>, k: nat, e: Dentry, n: nat)
    requires k < |es| && n <= |es|
    ensures Subdirs(dir, es[k := e], n) ==
      Subdirs(dir, es, n) + (if k < n then Counts(dir, e) - Counts(dir, es[k]) else 0)
  {
    if n > 0 { SubdirsSet(dir, es, k, e, n - 1); }
  }

  lemma {:induction false} SubdirsFrame(dir: seq<bool>, dir': seq<bool>, es: seq<Dentry>, n: nat)
    requires n <= |es|
    requires forall k :: 0 <= k < n ==> Counts(dir, es[k]) == Counts(dir', es[k])
    ensures Subdirs(dir, es, n) == Subdirs(dir', es, n)
  {
    if n > 0 { SubdirsFrame(dir, dir', es, n - 1); }
  }

  lemma {:induction false} SubdirsBlank(dir: seq<bool>, es: seq<Dentry>, n: nat)
    requires n <= |es| && forall k :: 0 <= k < n ==> !Live(es[k])
    ensures Subdirs(dir, es, n) == 0
  {
    if n > 0 { SubdirsBlank(dir, es, n - 1); }
  }

  // ---- Creating an entry ----

  predicate CanCreate(ns: Ns, d: int, k: int, i: int, name: string) {
    && Shape(ns)
    && IsDir(ns, d) && 0 <= k < SLOTS && !Live(ns.ents[d][k])
    && 0 <= i < |ns.used| && !ns.used[i]
    && 0 < |name| < MAX_NAME && FindName(ns.ents[d], name, 0) == SLOTS
  }

  /** Inode `i` becomes a file or empty directory called `name`, in slot `k` of directory `d`. */
  function AddLeaf(ns: Ns, d: int, k: int, i: int, name: string, isDir: bool): Ns
    requires CanCreate(ns, d, k, i, name)
  {
    Ns(ns.used[i := true],
       ns.dir[i := isDir],
       ns.links[i := if isDir then 2 else 1][d := ns.links[d] + if isDir then 1 else 0],
       ns.ents[d := ns.ents[d][k := Dentry(name, i)]])
  }

  lemma CreateShape(ns: Ns, d: int, k: int, i: int, name: string, isDir: bool)
    requires CanCreate(ns, d, k, i, name)
    ensures Shape(AddLeaf(ns, d, k, i, name, isDir))
    ensures forall e :: IsDir(AddLeaf(ns, d, k, i, name, isDir), e) <==> IsDir(ns, e) || (isDir && e == i)
  {
  }

  lemma CreateNamed(ns: Ns, d: int, k: int, i: int, name: string, isDir: bool)
    requires CanCreate(ns, d, k, i, name)
    ensures Shape(AddLeaf(ns, d, k, i, name, isDir))
    ensures forall e, l, j :: Named(AddLeaf(ns, d, k, i, name, isDir), e, l, j) <==>
      Named(ns, e, l, j) || (e == d && l == k && j == i)
  {
    CreateShape(ns, d, k, i, name, isDir);
    var ns' := AddLeaf(ns, d, k, i, name, isDir);
    forall e, l, j
      ensures Named(ns', e, l, j) <==> Named(ns, e, l, j) || (e == d && l == k && j == i)
    {
      if e == i && 0 <= l < SLOTS { assert ns'.ents[i] == ns.ents[i] && Blank(ns.ents[i]); }
    }
  }

  lemma CreateOneEntry(ns: Ns, d: int, k: int, i: int, name: string, isDir: bool)
    requires Linked(ns) && CanCreate(ns, d, k, i, name)
    ensures Shape(AddLeaf(ns, d, k, i, name, isDir)) && OneEntryEach(AddLeaf(ns, d, k, i, name, isDir))
    ensures EntriesGood(AddLeaf(ns, d, k, i, name, isDir))
  {
    CreateNamed(ns, d, k, i, name, isDir);
    var ns' := AddLeaf(ns, d, k, i, name, isDir);
    forall e, l ensures !Named(ns, e, l, i) {
      if IsDir(ns, e) && 0 <= l < SLOTS { assert GoodEntry(ns, ns.ents[e][l]); }
    }
    forall e, l | IsDir(ns', e) && 0 <= l < SLOTS ensures GoodEntry(ns', ns'.ents[e][l]) {
      if Live(ns'.ents[e][l]) {
        assert Named(ns', e, l, ns'.ents[e][l].num);
        if !(e == d && l == k) { assert GoodEntry(ns, ns.ents[e][l]); }
      }
    }
  }

  lemma CreateTidy(ns: Ns, d: int, k: int, i: int, name: string, isDir: bool, e: int)
    requires Linked(ns) && CanCreate(ns, d, k, i, name) && 0 <= e < |ns.used|
    ensures Tidy(AddLeaf(ns, d, k, i, name, isDir).ents[e])
  {
    assert Tidy(ns.ents[e]);
  }

  lemma CreateLinks(ns: Ns, d: int, k: int, i: int, name: string, isDir: bool, e: int)
    requires Linked(ns) && CanCreate(ns, d, k, i, name) && 0 <= e < |ns.used|
    requires AddLeaf(ns, d, k, i, name, isDir).used[e]
    ensures var ns' := AddLeaf(ns, d, k, i, name, isDir);
      Shape(ns') && ns'.links[e] == ExpectedLinks(ns', e)
  {
    CreateShape(ns, d, k, i, name, isDir);
    var ns' := AddLeaf(ns, d, k, i, name, isDir);
    if e == i {
      SubdirsBlank(ns'.dir, ns'.ents[e], SLOTS);
    } else if ns.dir[e] {
      forall l | 0 <= l < SLOTS ensures Counts(ns.dir, ns.ents[e][l]) == Counts(ns'.dir, ns.ents[e][l]) {
        assert GoodEntry(ns, ns.ents[e][l]);
      }
      SubdirsFrame(ns.dir, ns'.dir, ns.ents[e], SLOTS);
      if e == d { SubdirsSet(ns'.dir, ns.ents[d], k, Dentry(name, i), SLOTS); }
    }
  }

  lemma CreateLinked(ns: Ns, d: int, k: int, i: int, name: string, isDir: bool)
    requires Linked(ns) && CanCreate(ns, d, k, i, name)
    ensures Linked(AddLeaf(ns, d, k, i, name, isDir))
  {
    var ns' := AddLeaf(ns, d, k, i, name, isDir);
    CreateOneEntry(ns, d, k, i, name, isDir);
    forall e | 0 <= e < |ns.used| ensures Tidy(ns'.ents[e]) {
      CreateTidy(ns, d, k, i, name, isDir, e);
    }
    forall e | 0 <= e < |ns.used| && ns'.used[e] ensures ns'.links[e] == ExpectedLinks(ns', e) {
      CreateLinks(ns, d, k, i, name, isDir, e);
    }
  }

  lemma CreateLookup(ns: Ns, d: int, k: int, i: int, name: string, isDir: bool, e: int, c: string)
    requires Linked(ns) && CanCreate(ns, d, k, i, name)
    ensures var ns' := AddLeaf(ns, d, k, i, name, isDir);
      Shape(ns') && Lookup(ns', e, c) == if e == d && c == name then Some(i) else Lookup(ns, e, c)
  {
    CreateShape(ns, d, k, i, name, isDir);
    var ns' := AddLeaf(ns, d, k, i, name, isDir);
    if e == d {
      CreateTidy(ns, d, k, i, name, isDir, d);
      if c == name {
        FindNameAt(ns'.ents[d], k);
      } else {
        var l := FindName(ns.ents[d], c, 0);
        if l < SLOTS {
          FindNameAt(ns'.ents[d], l);
          assert GoodEntry(ns, ns.ents[d][l]);
        } else {
          assert FindName(ns'.ents[d], c, 0) == SLOTS;
        }
      }
    } else if IsDir(ns', e) {
      var l := FindName(ns.ents[e], c, 0);
      if e != i && l < SLOTS { assert GoodEntry(ns, ns.ents[e][l]); }
    }
  }

  /** Creation changes what exactly one path resolves to: the new name under the directory's path. */
  lemma {:induction false} CreateResolve(ns: Ns, d: int, k: int, i: int, name: string, isDir: bool,
                                         q: seq<string>, p: seq<string>)
    requires Linked(ns) && CanCreate(ns, d, k, i, name) && Resolve(ns, q) == Some(d)
    ensures var ns' := AddLeaf(ns, d, k, i, name, isDir);
      Shape(ns') && Resolve(ns', p) == if p == q + [name] then Some(i) else Resolve(ns, p)
    decreases |p|
  {
    CreateShape(ns, d, k, i, name, isDir);
    if p != [] {
      var init, c := p[..|p| - 1], p[|p| - 1];
      CreateResolve(ns, d, k, i, name, isDir, q, init);
      LastIs(p, q, name);
      if init == q + [name] {
        UnusedUnresolved(ns, q, d, name);
        CreateLookup(ns, d, k, i, name, isDir, i, c);
        assert FindName(ns.ents[i], c, 0) == SLOTS;
      } else if Resolve(ns, init).Some? {
        var e := Resolve(ns, init).value;
        CreateLookup(ns, d, k, i, name, isDir, e, c);
        if e == d { OnePath(ns, init, q); }
      }
    }
  }

  lemma LastIs<T>(p: seq<T>, q: seq<T>, c: T)
    requires p != []
    ensures p == q + [c] <==> p[..|p| - 1] == q && p[|p| - 1] == c
    ensures p[..|p| - 1] == q + [c] ==> p != q + [c]
  {
    assert p == p[..|p| - 1] + [p[|p| - 1]];
  }

  lemma UnusedUnresolved(ns: Ns, q: seq<string>, d: int, name: string)
    requires Shape(ns) && Resolve(ns, q) == Some(d) && IsDir(ns, d) && FindName(ns.ents[d], name, 0) == SLOTS
    ensures Resolve(ns, q + [name]) == None
  {
    assert (q + [name])[..|q|] == q;
  }

  /** Creation keeps the tree. */
  lemma CreateTree(ns: Ns, d: int, k: int, i: int, name: string, isDir: bool)
    requires Tree(ns) && CanCreate(ns, d, k, i, name)
    ensures Tree(AddLeaf(ns, d, k, i, name, isDir))
  {
    CreateLinked(ns, d, k, i, name, isDir);
    var ns' := AddLeaf(ns, d, k, i, name, isDir);
    assert Reachable(ns, d);
    var q :| Resolve(ns, q) == Some(d);
    forall j | 0 <= j < |ns'.used| && ns'.used[j] ensures Reachable(ns', j) {
      if j == i {
        CreateResolve(ns, d, k, i, name, isDir, q, q + [name]);
      } else {
        assert Reachable(ns, j);
        var p :| Resolve(ns, p) == Some(j);
        UnusedUnresolved(ns, q, d, name);
        CreateResolve(ns, d, k, i, name, isDir, q, p);
      }
    }
  }

  // ---- Removing an entry ----

  predicate CanRemove(ns: Ns, d: int, k: int, i: int) {
    && Shape(ns)
    && Named(ns, d, k, i) && 0 < i < |ns.used| && ns.used[i]
    && Blank(ns.ents[i])
  }

  /** The entry in slot `k` of `d` and the file or empty directory `i` it names disappear. */
  function RemoveLeaf(ns: Ns, d: int, k: int, i: int): Ns
    requires CanRemove(ns, d, k, i)
  {
    Ns(ns.used[i := false],
       ns.dir[i := false],
       ns.links[d := ns.links[d] - if ns.dir[i] then 1 else 0][i := 0],
       ns.ents[d := ns.ents[d][k := FREE]])
  }

  lemma SoleEntry(ns: Ns, d: int, k: int, i: int, e: int, l: int)
    requires Shape(ns) && OneEntryEach(ns) && Named(ns, d, k, i) && IsDir(ns, e) && 0 <= l < SLOTS
    ensures Live(ns.ents[e][l]) && ns.ents[e][l].num == i ==> e == d && l == k
  {
    assert Live(ns.ents[e][l]) && ns.ents[e][l].num == i ==> Named(ns, e, l, i);
  }

  lemma RemoveShape(ns: Ns, d: int, k: int, i: int)
    requires CanRemove(ns, d, k, i)
    ensures d != i && Shape(RemoveLeaf(ns, d, k, i))
    ensures forall e :: IsDir(RemoveLeaf(ns, d, k, i), e) <==> IsDir(ns, e) && e != i
  {
    assert d != i by { assert ns.ents[i][k] == FREE; }
  }

  lemma RemoveNamed(ns: Ns, d: int, k: int, i: int)
    requires CanRemove(ns, d, k, i)
    ensures Shape(RemoveLeaf(ns, d, k, i))
    ensures forall e, l, j :: Named(RemoveLeaf(ns, d, k, i), e, l, j) <==> Named(ns, e, l, j) && !(e == d && l == k)
  {
    RemoveShape(ns, d, k, i);
    var ns' := RemoveLeaf(ns, d, k, i);
    forall e, l, j ensures Named(ns', e, l, j) <==> Named(ns, e, l, j) && !(e == d && l == k) {
      if e == i && 0 <= l < SLOTS { assert ns.ents[i][l] == FREE; }
    }
  }

  lemma RemoveOneEntry(ns: Ns, d: int, k: int, i: int)
    requires Linked(ns) && CanRemove(ns, d, k, i)
    ensures Shape(RemoveLeaf(ns, d, k, i)) && OneEntryEach(RemoveLeaf(ns, d, k, i))
    ensures EntriesGood(RemoveLeaf(ns, d, k, i))
  {
    RemoveNamed(ns, d, k, i);
    var ns' := RemoveLeaf(ns, d, k, i);
    forall e, l | IsDir(ns', e) && 0 <= l < SLOTS ensures GoodEntry(ns', ns'.ents[e][l]) {
      if Live(ns'.ents[e][l]) {
        assert Named(ns', e, l, ns'.ents[e][l].num);
        assert GoodEntry(ns, ns.ents[e][l]);
        SoleEntry(ns, d, k, i, e, l);
      }
    }
  }

  lemma RemoveTidy(ns: Ns, d: int, k: int, i: int, e: int)
    requires Linked(ns) && CanRemove(ns, d, k, i) && 0 <= e < |ns.used|
    ensures Tidy(RemoveLeaf(ns, d, k, i).ents[e])
  {
    assert Tidy(ns.ents[e]);
  }

  lemma RemoveLinks(ns: Ns, d: int, k: int, i: int, e: int)
    requires Linked(ns) && CanRemove(ns, d, k, i) && 0 <= e < |ns.used|
    requires RemoveLeaf(ns, d, k, i).used[e]
    ensures var ns' := RemoveLeaf(ns, d, k, i);
      Shape(ns') && ns'.links[e] == ExpectedLinks(ns', e)
  {
    RemoveShape(ns, d, k, i);
    var ns' := RemoveLeaf(ns, d, k, i);
    if ns.dir[e] {
      forall l | 0 <= l < SLOTS && !(e == d && l == k)
        ensures Counts(ns.dir, ns.ents[e][l]) == Counts(ns'.dir, ns.ents[e][l])
      {
        SoleEntry(ns, d, k, i, e, l);
      }
      if e == d {
        SubdirsSet(ns.dir, ns.ents[d], k, FREE, SLOTS);
        SubdirsFrame(ns.dir, ns'.dir, ns'.ents[d], SLOTS);
      } else {
        SubdirsFrame(ns.dir, ns'.dir, ns.ents[e], SLOTS);
      }
    }
  }

  lemma RemoveLinked(ns: Ns, d: int, k: int, i: int)
    requires Linked(ns) && CanRemove(ns, d, k, i)
    ensures Linked(RemoveLeaf(ns, d, k, i))
  {
    var ns' := RemoveLeaf(ns, d, k, i);
    RemoveOneEntry(ns, d, k, i);
    forall e | 0 <= e < |ns.used| ensures Tidy(ns'.ents[e]) { RemoveTidy(ns, d, k, i, e); }
    forall e | 0 <= e < |ns.used| && ns'.used[e] ensures ns'.links[e] == ExpectedLinks(ns', e) {
      RemoveLinks(ns, d, k, i, e);
    }
  }

  lemma RemoveLookup(ns: Ns, d: int, k: int, i: int, e: int, c: string)
    requires Linked(ns) && CanRemove(ns, d, k, i) && e != i
    ensures var ns' := RemoveLeaf(ns, d, k, i);
      Shape(ns') && Lookup(ns', e, c) == if Lookup(ns, e, c) == Some(i) then None else Lookup(ns, e, c)
  {
    RemoveShape(ns, d, k, i);
    var ns' := RemoveLeaf(ns, d, k, i);
    if IsDir(ns, e) {
      var l := FindName(ns.ents[e], c, 0);
      if l < SLOTS {
        assert Named(ns, e, l, ns.ents[e][l].num);
        if e == d && l == k {
          RemoveTidy(ns, d, k, i, d);
          assert FindName(ns'.ents[d], c, 0) == SLOTS;
        } else {
          RemoveTidy(ns, d, k, i, e);
          FindNameAt(ns'.ents[e], l);
          SoleEntry(ns, d, k, i, e, l);
        }
      } else {
        assert FindName(ns'.ents[e], c, 0) == SLOTS;
      }
    }
  }

  /** Removal changes what exactly one path resolves to: the path of the removed inode. */
  lemma {:induction false} RemoveResolve(ns: Ns, d: int, k: int, i: int, p: seq<string>)
    requires Linked(ns) && CanRemove(ns, d, k, i)
    ensures var ns' := RemoveLeaf(ns, d, k, i);
      Shape(ns') && Resolve(ns', p) == if Resolve(ns, p) == Some(i) then None else Resolve(ns, p)
    decreases |p|
  {
    RemoveShape(ns, d, k, i);
    if p != [] {
      var init, c := p[..|p| - 1], p[|p| - 1];
      RemoveResolve(ns, d, k, i, init);
      if Resolve(ns, init).Some? {
        var e := Resolve(ns, init).value;
        if e == i {
          assert FindName(ns.ents[i], c, 0) == SLOTS;
        } else {
          RemoveLookup(ns, d, k, i, e, c);
        }
      }
    }
  }

  /** Removal keeps the tree. */
  lemma RemoveTree(ns: Ns, d: int, k: int, i: int)
    requires Tree(ns) && CanRemove(ns, d, k, i)
    ensures Tree(RemoveLeaf(ns, d, k, i))
  {
    RemoveLinked(ns, d, k, i);
    var ns' := RemoveLeaf(ns, d, k, i);
    forall j | 0 <= j < |ns'.used| && ns'.used[j] ensures Reachable(ns', j) {
      assert Reachable(ns, j);
      var p :| Resolve(ns, p) == Some(j);
      RemoveResolve(ns, d, k, i, p);
    }
  }

  /** The first entry at or after slot `k` that carries the number `i`, or the length. */
  function FindNum(es: seq<Dentry>, i: nat, k: nat): (r: nat)
    requires k <= |es|
    ensures k <= r <= |es|
    ensures r < |es| ==> es[r].num == i && i != 0
    ensures forall j :: k <= j < r ==> !(es[j].num == i && i != 0)
    decreases |es| - k
  {
    if k == |es| || (es[k].num == i && i != 0) then k else FindNum(es, i, k + 1)
  }

  /** Removing by inode number hits the very entry that was found by name. */
  lemma SameEntry(ns: Ns, d: int, name: string)
    requires Linked(ns) && Lookup(ns, d, name).Some?
    ensures var i := Lookup(ns, d, name).value; var k := FindName(ns.ents[d], name, 0);
      FindNum(ns.ents[d], i, 0) == k && Named(ns, d, k, i)
  {
    LookupNamed(ns, d, name);
    var i := Lookup(ns, d, name).value;
    var k := FindName(ns.ents[d], name, 0);
    var l := FindNum(ns.ents[d], i, 0);
    assert Tidy(ns.ents[d]);
    assert Named(ns, d, l, i);
  }

  // ---- Removing a directory that still has entries ----

  function Blanks(): (es: seq<Dentry>)
    ensures Blank(es)
  {
    seq(SLOTS, _ => FREE)
  }

  /** Like RemoveLeaf, but whatever inode `i` held is discarded with it. */
  function Cut(ns: Ns, d: int, k: int, i: int): Ns
    requires Shape(ns) && IsDir(ns, d) && 0 <= k < SLOTS && 0 <= i < |ns.used|
  {
    Ns(ns.used[i := false],
       ns.dir[i := false],
       ns.links[d := ns.links[d] - if ns.dir[i] then 1 else 0][i := 0],
       ns.ents[d := ns.ents[d][k := FREE]][i := Blanks()])
  }

  lemma CutIsRemove(ns: Ns, d: int, k: int, i: int)
    requires CanRemove(ns, d, k, i)
    ensures Cut(ns, d, k, i) == RemoveLeaf(ns, d, k, i)
  {
    RemoveShape(ns, d, k, i);
    assert ns.ents[i] == Blanks();
  }

  /** Cutting a directory that still holds a live entry orphans the inode the entry names. */
  lemma CutOrphans(ns: Ns, d: int, k: int, i: int, l: int)
    requires Linked(ns) && Named(ns, d, k, i) && 0 < i < |ns.used| && d != i
    requires IsDir(ns, i) && 0 <= l < SLOTS && Live(ns.ents[i][l])
    ensures !Tree(Cut(ns, d, k, i))
  {
    var ns', j := Cut(ns, d, k, i), ns.ents[i][l].num;
    assert Named(ns, i, l, j) && GoodEntry(ns, ns.ents[i][l]);
    if Tree(ns') {
      assert j != i;
      var e, m := ExactlyOneEntry(ns', j);
      assert Named(ns, e, m, j);
    }
  }

  /** No live entry is called "." or "..". */
  ghost predicate NoDots(ns: Ns)
    requires Shape(ns)
  {
    forall d, k :: IsDir(ns, d) && 0 <= k < SLOTS && Live(ns.ents[d][k]) ==> !Dot(ns.ents[d][k].name)
  }

  predicate Dot(name: string) {
    name == "." || name == ".."
  }
}
