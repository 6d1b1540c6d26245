/** The reference counts of page directories that clone shares: uvmrefcount in vm.c and its users. */
module PageRefs {

  /** struct uvmdesc; count -1 marks an unused entry */
  datatype Ref = Ref(count: int, pgdir: int)

  /** The table, and the directory of each process slot (0 for none); both have NPROC entries. */
  datatype Sys = Sys(tab: seq<Ref>, dirs: seq<int>)

  predicate Live(tab: seq<Ref>, i: int, d: int) { 0 <= i < |tab| && tab[i].count != -1 && tab[i].pgdir == d }

  /** locate_uvmrefcount: the entry of directory `d` from `k` on, or the table's length */
  function Locate(tab: seq<Ref>, d: int, k: nat): (r: nat)
    requires k <= |tab|
    ensures k <= r <= |tab|
    ensures r < |tab| ==> Live(tab, r, d)
    ensures forall i :: k <= i < r ==> !Live(tab, i, d)
    decreases |tab| - k
  {
    if k == |tab| || (tab[k].count != -1 && tab[k].pgdir == d) then k else Locate(tab, d, k + 1)
  }

  /** allocate_uvmrefcount's scan */
  function FreeEntry(tab: seq<Ref>, k: nat): (r: nat)
    requires k <= |tab|
    ensures k <= r <= |tab|
    ensures r < |tab| ==> tab[r].count == -1
    ensures forall i :: k <= i < r ==> tab[i].count != -1
    decreases |tab| - k
  {
    if k == |tab| || tab[k].count == -1 then k else FreeEntry(tab, k + 1)
  }

  /** clone's count of one more user */
  function Shared(tab: seq<Ref>, d: int): seq<Ref> {
    var i := Locate(tab, d, 0);
    if i < |tab| then tab[i := Ref(tab[i].count + 1, d)]
    else
      var e := FreeEntry(tab, 0);
      if e < |tab| then tab[e := Ref(2, d)] else tab
  }

  /** freevm's count of one less, and whether the directory is to be freed */
  function Dropped(tab: seq<Ref>, d: int): (seq<Ref>, bool) {
    var i := Locate(tab, d, 0);
    if i == |tab| then (tab, true)
    else if tab[i].count - 1 != 0 then (tab[i := Ref(tab[i].count - 1, d)], false)
    else (tab[i := Ref(-1, d)], true)
  }

  // ---- Counting ----

  function Sharers(dirs: seq<int>, d: int, n: nat): nat
    requires n <= |dirs|
  {
    if n == 0 then 0 else Sharers(dirs, d, n - 1) + if dirs[n - 1] == d then 1 else 0
  }

  function All(s: Sys, d: int): nat { Sharers(s.dirs, d, |s.dirs|) }

  lemma {:induction false} SharersSet(dirs: seq<int>, i: int, e: int, d: int, n: nat)
    requires 0 <= i < |dirs| && n <= |dirs|
    ensures Sharers(dirs[i := e], d, n) ==
      Sharers(dirs, d, n) + (if i < n && e == d then 1 else 0) - (if i < n && dirs[i] == d then 1 else 0)
  {
    if n > 0 { SharersSet(dirs, i, e, d, n - 1); }
  }

  lemma {:induction false} SharersAny(dirs: seq<int>, d: int, i: int, n: nat)
    requires 0 <= i < n <= |dirs| && dirs[i] == d
    ensures Sharers(dirs, d, n) >= 1
  {
    if i < n - 1 { SharersAny(dirs, d, i, n - 1); }
  }

  lemma {:induction false} SomeSharer(dirs: seq<int>, d: int, n: nat) returns (i: nat)
    requires n <= |dirs| && Sharers(dirs, d, n) >= 1
    ensures i < n && dirs[i] == d
  {
    if dirs[n - 1] == d { i := n - 1; } else { i := SomeSharer(dirs, d, n - 1); }
  }

  /** Only the located entry is `d`'s. */
  lemma OnlyEntry(s: Sys, d: int)
    requires Inv(s)
    ensures forall j :: 0 <= j < |s.tab| && j != Locate(s.tab, d, 0) && s.tab[j].count != -1 ==> s.tab[j].pgdir != d
  {
    var i := Locate(s.tab, d, 0);
    forall j | 0 <= j < |s.tab| && j != i && s.tab[j].count != -1 ensures s.tab[j].pgdir != d {
      assert s.tab[j].pgdir == d <==> Live(s.tab, j, d);
    }
  }

  // ---- What every operation keeps ----

  /** An entry counts the processes that use its directory; a directory used by two or more has an entry, and only
      one. */
  ghost predicate Inv(s: Sys) {
    && |s.tab| == |s.dirs|
    && (forall i :: 0 <= i < |s.tab| && s.tab[i].count != -1 ==>
        s.tab[i].pgdir != 0 && s.tab[i].count == All(s, s.tab[i].pgdir) >= 1)
    && (forall i, j, d :: Live(s.tab, i, d) && Live(s.tab, j, d) ==> i == j)
    && (forall d :: d != 0 && All(s, d) >= 2 ==> Locate(s.tab, d, 0) < |s.tab|)
  }

  function Marked(mark: seq<bool>, n: nat): nat
    requires n <= |mark|
  {
    if n == 0 then 0 else Marked(mark, n - 1) + if mark[n - 1] then 1 else 0
  }

  lemma {:induction false} MarkSet(mark: seq<bool>, i: int, n: nat)
    requires 0 <= i < |mark| && n <= |mark| && !mark[i]
    ensures Marked(mark[i := true], n) == Marked(mark, n) + if i < n then 1 else 0
  {
    if n > 0 { MarkSet(mark, i, n - 1); }
  }

  lemma {:induction false} MarkedAtMost(mark: seq<bool>, i: int, n: nat)
    requires 0 <= i < n <= |mark| && !mark[i]
    ensures Marked(mark, n) < n
  {
    if i < n - 1 { MarkedAtMost(mark, i, n - 1); } else { MarkedSome(mark, n - 1); }
  }

  lemma {:induction false} MarkedSome(mark: seq<bool>, n: nat)
    requires n <= |mark|
    ensures Marked(mark, n) <= n
  {
    if n > 0 { MarkedSome(mark, n - 1); }
  }

  /** The entries below `k`, if all in use, belong to `k` different processes. */
  lemma {:induction false} Users(s: Sys, k: nat) returns (mark: seq<bool>)
    requires Inv(s) && k <= |s.tab| && forall i :: 0 <= i < k ==> s.tab[i].count != -1
    ensures |mark| == |s.dirs| && Marked(mark, |mark|) == k
    ensures forall p :: 0 <= p < |mark| && mark[p] ==>
      s.dirs[p] != 0 && exists i :: 0 <= i < k && s.tab[i].pgdir == s.dirs[p]
  {
    if k == 0 {
      mark := seq(|s.dirs|, _ => false);
      NoneMarked(mark, |mark|);
    } else {
      var m := Users(s, k - 1);
      var d := s.tab[k - 1].pgdir;
      var w := SomeSharer(s.dirs, d, |s.dirs|);
      assert Live(s.tab, k - 1, d);
      forall i | 0 <= i < k - 1 ensures s.tab[i].pgdir != d { assert s.tab[i].pgdir == d ==> Live(s.tab, i, d); }
      MarkSet(m, w, |m|);
      mark := m[w := true];
      forall p | 0 <= p < |mark| && mark[p]
        ensures s.dirs[p] != 0 && exists i :: 0 <= i < k && s.tab[i].pgdir == s.dirs[p]
      {
        assert p == w ==> s.tab[k - 1].pgdir == s.dirs[p];
      }
    }
  }

  lemma {:induction false} NoneMarked(mark: seq<bool>, n: nat)
    requires n <= |mark| && forall i :: 0 <= i < |mark| ==> !mark[i]
    ensures Marked(mark, n) == 0
  {
    if n > 0 { NoneMarked(mark, n - 1); }
  }

  /** While a process slot is free, so is a table entry: clone never loses track of a directory it shares. */
  lemma EntryAvailable(s: Sys, np: nat)
    requires Inv(s) && np < |s.dirs| && s.dirs[np] == 0
    ensures FreeEntry(s.tab, 0) < |s.tab|
  {
    if FreeEntry(s.tab, 0) == |s.tab| {
      var mark := Users(s, |s.tab|);
      MarkedAtMost(mark, np, |mark|);
    }
  }

  /** clone: slot `np` starts to use the directory of slot `cur` */
  function Share(s: Sys, np: nat, cur: nat): Sys
    requires np < |s.dirs| && cur < |s.dirs|
  {
    Sys(Shared(s.tab, s.dirs[cur]), s.dirs[np := s.dirs[cur]])
  }

  lemma ShareInv(s: Sys, np: nat, cur: nat)
    requires Inv(s) && np < |s.dirs| && cur < |s.dirs| && s.dirs[np] == 0 && s.dirs[cur] != 0
    ensures Inv(Share(s, np, cur))
  {
    var s', d := Share(s, np, cur), s.dirs[cur];
    EntryAvailable(s, np);
    SharersAny(s.dirs, d, cur, |s.dirs|);
    forall e ensures All(s', e) == All(s, e) + (if e == d then 1 else 0) - (if e == 0 then 1 else 0) {
      SharersSet(s.dirs, np, d, e, |s.dirs|);
    }
    ShareEntries(s, s', d);
  }

  lemma ShareEntries(s: Sys, s': Sys, d: int)
    requires Inv(s) && d != 0 && FreeEntry(s.tab, 0) < |s.tab| && s'.tab == Shared(s.tab, d) && |s'.dirs| == |s.dirs|
    requires All(s, d) >= 1 && forall e :: e != 0 ==> All(s', e) == All(s, e) + if e == d then 1 else 0
    ensures Inv(s')
  {
    var i, k := Locate(s.tab, d, 0), FreeEntry(s.tab, 0);
    OnlyEntry(s, d);
    var at := if i < |s.tab| then i else k;
    assert Live(s'.tab, at, d) && s'.tab == s.tab[at := s'.tab[at]];
    forall j, e | 0 <= j < |s.tab| && j != at ensures Live(s'.tab, j, e) == Live(s.tab, j, e) {
    }
    forall e | e != 0 && All(s', e) >= 2 ensures Locate(s'.tab, e, 0) < |s'.tab| {
      if e != d { assert Live(s'.tab, Locate(s.tab, e, 0), e); }
    }
  }

  /** fork or exec: slot `np` gets directory `d` of its own */
  function Attach(s: Sys, np: nat, d: int): Sys
    requires np < |s.dirs|
  {
    s.(dirs := s.dirs[np := d])
  }

  lemma AttachInv(s: Sys, np: nat, d: int)
    requires Inv(s) && np < |s.dirs| && s.dirs[np] == 0 && d != 0 && All(s, d) == 0
    ensures Inv(Attach(s, np, d))
  {
    var s' := Attach(s, np, d);
    forall e ensures All(s', e) == All(s, e) + (if e == d then 1 else 0) - (if e == 0 then 1 else 0) {
      SharersSet(s.dirs, np, d, e, |s.dirs|);
    }
  }

  /** freevm for the process in slot `z`: the new state, and whether the directory is freed */
  function Drop(s: Sys, z: nat): (Sys, bool)
    requires z < |s.dirs|
  {
    (Sys(Dropped(s.tab, s.dirs[z]).0, s.dirs[z := 0]), Dropped(s.tab, s.dirs[z]).1)
  }

  /** A shared directory is freed exactly when its last user drops it. */
  lemma LastDropFrees(s: Sys, z: nat)
    requires Inv(s) && z < |s.dirs| && s.dirs[z] != 0
    ensures var (s', freed) := Drop(s, z); Inv(s') && (freed <==> All(s', s.dirs[z]) == 0)
  {
    var (s', freed) := Drop(s, z);
    var d := s.dirs[z];
    SharersAny(s.dirs, d, z, |s.dirs|);
    forall e ensures All(s', e) == All(s, e) - (if e == d then 1 else 0) + (if e == 0 then 1 else 0) {
      SharersSet(s.dirs, z, 0, e, |s.dirs|);
    }
    OnlyEntry(s, d);
    if Locate(s.tab, d, 0) < |s.tab| { DropEntries(s, s', d, Locate(s.tab, d, 0)); }
  }

  lemma DropEntries(s: Sys, s': Sys, d: int, i: nat)
    requires Inv(s) && d != 0 && i == Locate(s.tab, d, 0) < |s.tab| && s'.tab == Dropped(s.tab, d).0
    requires |s'.dirs| == |s.dirs|
    requires All(s, d) >= 1 && forall e :: e != 0 ==> All(s', e) == All(s, e) - if e == d then 1 else 0
    ensures Inv(s')
  {
    OnlyEntry(s, d);
    forall j, e | 0 <= j < |s.tab| && j != i ensures Live(s'.tab, j, e) == Live(s.tab, j, e) {
    }
    forall e | e != 0 && All(s', e) >= 2 ensures Locate(s'.tab, e, 0) < |s'.tab| {
      assert e != d ==> Live(s'.tab, Locate(s.tab, e, 0), e);
      assert e == d ==> Live(s'.tab, i, d);
    }
  }
}
