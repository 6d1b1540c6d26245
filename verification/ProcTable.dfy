/** proc.c and sysproc.c on one CPU: the process table as functions, and the scans over it as loops. */
module ProcTable {

  datatype PState = UNUSED | SLEEPING | RUNNABLE | RUNNING | ZOMBIE

  /** What a process sleeps on: nothing, a process (in wait, itself), the tick counter, or some other object. */
  datatype Chan = NoChan | OfProc(i: int) | OnTicks | OtherChan(id: int)

  /** `parent` is a table index, -1 for none; `last` is t_last_scheduled. */
  datatype Proc = Proc(state: PState, pid: int, parent: int, chan: Chan, killed: bool, sleepticks: int,
                       remain: int, last: int, skip: bool)

  const INIT_REMAIN: int := 0x7fff_ffff

  const UINT: nat := 0x1_0000_0000

  function Int32(n: int): int {
    var m := n % UINT;
    if m >= UINT / 2 then m - UINT else m
  }

  // ---- wakeup1 ----

  predicate SleepsOn(p: Proc, c: Chan) { p.state == SLEEPING && p.chan == c }

  function Woken(p: Proc, c: Chan): Proc { if SleepsOn(p, c) then p.(state := RUNNABLE) else p }

  function Wake(procs: seq<Proc>, c: Chan): (r: seq<Proc>)
    ensures |r| == |procs| && forall i :: 0 <= i < |procs| ==> r[i] == Woken(procs[i], c)
  {
    seq(|procs|, i requires 0 <= i < |procs| => Woken(procs[i], c))
  }

  method Wakeup1(procs: seq<Proc>, c: Chan) returns (r: seq<Proc>)
    ensures r == Wake(procs, c)
  {
    r := procs;
    var i := 0;
    while i < |procs|
      invariant 0 <= i <= |procs| == |r|
      invariant forall j :: 0 <= j < i ==> r[j] == Woken(procs[j], c)
      invariant forall j :: i <= j < |procs| ==> r[j] == procs[j]
    {
      if r[i].state == SLEEPING && r[i].chan == c {
        r := r[i := r[i].(state := RUNNABLE)];
      }
      i := i + 1;
    }
  }

  // ---- allocproc ----

  /** The first unused slot from `k` on, or the table's length. */
  function FreeSlot(procs: seq<Proc>, k: nat): (r: nat)
    requires k <= |procs|
    ensures k <= r <= |procs|
    ensures r < |procs| ==> procs[r].state == UNUSED
    ensures forall i :: k <= i < r ==> procs[i].state != UNUSED
    decreases |procs| - k
  {
    if k == |procs| || procs[k].state == UNUSED then k else FreeSlot(procs, k + 1)
  }

  // ---- exit ----

  function Adopted(p: Proc, cur: int, init: int): Proc { if p.parent == cur then p.(parent := init) else p }

  function Reparent(procs: seq<Proc>, cur: int, init: int): (r: seq<Proc>)
    ensures |r| == |procs| && forall i :: 0 <= i < |procs| ==> r[i] == Adopted(procs[i], cur, init)
  {
    seq(|procs|, i requires 0 <= i < |procs| => Adopted(procs[i], cur, init))
  }

  predicate HasZombie(procs: seq<Proc>, cur: int, n: nat)
    requires n <= |procs|
  {
    exists i :: 0 <= i < n && procs[i].parent == cur && procs[i].state == ZOMBIE
  }

  /** exit's loop: the children go to init, which is woken if one of them is a zombie. */
  function Orphan(procs: seq<Proc>, cur: int, init: int): seq<Proc> {
    var r := Reparent(procs, cur, init);
    if HasZombie(procs, cur, |procs|) then Wake(r, OfProc(init)) else r
  }

  method PassChildren(procs: seq<Proc>, cur: int, init: int) returns (r: seq<Proc>)
    requires cur != init
    ensures r == Orphan(procs, cur, init)
  {
    r := procs;
    var i := 0;
    while i < |procs|
      invariant 0 <= i <= |procs| == |r|
      invariant forall j :: 0 <= j < |procs| ==>
        r[j] == Halfway(procs, cur, init, i, j)
    {
      if r[i].parent == cur {
        r := r[i := r[i].(parent := init)];
        if r[i].state == ZOMBIE { r := Wakeup1(r, OfProc(init)); }
      }
      i := i + 1;
    }
  }

  /** Entry `j` when the loop has passed the first `i` entries. */
  ghost function Halfway(procs: seq<Proc>, cur: int, init: int, i: nat, j: nat): Proc
    requires i <= |procs| && j < |procs|
  {
    var p := if j < i then Adopted(procs[j], cur, init) else procs[j];
    if HasZombie(procs, cur, i) then Woken(p, OfProc(init)) else p
  }

  // ---- wait ----

  /** The first zombie child of `cur` from `k` on, or the table's length. */
  function ZombieChild(procs: seq<Proc>, cur: int, k: nat): (r: nat)
    requires k <= |procs|
    ensures k <= r <= |procs|
    ensures r < |procs| ==> procs[r].parent == cur && procs[r].state == ZOMBIE
    ensures forall i :: k <= i < r ==> !(procs[i].parent == cur && procs[i].state == ZOMBIE)
    decreases |procs| - k
  {
    if k == |procs| || (procs[k].parent == cur && procs[k].state == ZOMBIE) then k else ZombieChild(procs, cur, k + 1)
  }

  predicate HasKids(procs: seq<Proc>, cur: int, n: nat)
    requires n <= |procs|
  {
    exists i :: 0 <= i < n && procs[i].parent == cur
  }

  /** The scan of wait: the zombie found, and whether a child was met before. */
  method ScanChildren(procs: seq<Proc>, cur: int) returns (z: nat, kids: bool)
    ensures z == ZombieChild(procs, cur, 0)
    ensures z == |procs| ==> kids == HasKids(procs, cur, |procs|)
  {
    z, kids := 0, false;
    while z < |procs|
      invariant 0 <= z <= ZombieChild(procs, cur, 0) && kids == HasKids(procs, cur, z)
    {
      if procs[z].parent == cur {
        kids := true;
        if procs[z].state == ZOMBIE { return; }
      }
      z := z + 1;
    }
  }

  // ---- The scheduler's choice ----

  /** Less time remaining, or as much and a higher pid. */
  predicate Better(p: Proc, q: Proc) { p.remain < q.remain || (p.remain == q.remain && p.pid > q.pid) }

  predicate Eligible(procs: seq<Proc>, target: int, all: bool, i: int)
    requires 0 <= i < |procs|
  {
    procs[i].state == RUNNABLE && (all || (!procs[i].skip && i != target))
  }

  /** The best eligible process among the first `k`, or -1. */
  function Best(procs: seq<Proc>, target: int, all: bool, k: nat): (r: int)
    requires k <= |procs|
    ensures -1 <= r < k
    ensures r >= 0 ==> Eligible(procs, target, all, r)
    ensures forall i :: 0 <= i < k && Eligible(procs, target, all, i) ==>
      r >= 0 && (i == r || !Better(procs[i], procs[r]))
  {
    if k == 0 then -1 else
      var b := Best(procs, target, all, k - 1);
      if Eligible(procs, target, all, k - 1) && (b < 0 || Better(procs[k - 1], procs[b])) then k - 1 else b
  }

  function Pick(procs: seq<Proc>, target: int): (r: int)
    ensures -1 <= r < |procs| && (r >= 0 ==> procs[r].state == RUNNABLE)
  {
    var b := Best(procs, target, false, |procs|);
    if b >= 0 then b else Best(procs, target, true, |procs|)
  }

  /** The two passes of the STCF scheduler. */
  method PickNext(procs: seq<Proc>, target: int) returns (best: int)
    ensures best == Pick(procs, target)
  {
    best := -1;
    var i := 0;
    while i < |procs|
      invariant 0 <= i <= |procs| && best == Best(procs, target, false, i)
    {
      if procs[i].state == RUNNABLE && !(procs[i].skip || i == target) {
        if best == -1 || procs[i].remain < procs[best].remain ||
           (procs[i].remain == procs[best].remain && procs[i].pid > procs[best].pid) {
          best := i;
        }
      }
      i := i + 1;
    }
    if best == -1 {
      i := 0;
      while i < |procs|
        invariant 0 <= i <= |procs| && best == Best(procs, target, true, i)
      {
        if procs[i].state == RUNNABLE {
          if best == -1 || procs[i].remain < procs[best].remain ||
             (procs[i].remain == procs[best].remain && procs[i].pid > procs[best].pid) {
            best := i;
          }
        }
        i := i + 1;
      }
    }
  }

  // ---- Time ----

  /** stcf_account_before_switch */
  function Charge(p: Proc, ticks: nat): Proc {
    if p.last >= 0 then p.(remain := Int32(p.remain - Int32(ticks - p.last % UINT))) else p
  }

  /** Below 2^31 ticks, and with enough room below, the charge is the plain difference. */
  lemma ChargeExact(p: Proc, ticks: nat)
    requires ticks < UINT / 2 && 0 <= p.last <= ticks && 1 - p.last <= p.remain <= INIT_REMAIN
    ensures Charge(p, ticks).remain == p.remain - (ticks - p.last)
  {
  }
}
