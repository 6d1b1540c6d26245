/** The writer-priority reader-writer lock, any number of threads and any interleaving.  The code between a
    mutex lock and the next unlock is one step, and so is a sem_wait. */
module RwLock {

  /** rwlock_t without its mutex; `wlock` is the value of the writer semaphore. */
  datatype Lock = Lock(readers: int, waiting: int, active: bool, wlock: nat)

  /** Where a thread is: outside; in the loop of rw_rlock; inside as a reader; announced and in sem_wait;
      woken and about to recheck; inside as the writer. */
  datatype Pc = Idle | Trying | Reading | Parked | Woken | Writing

  datatype Sys = Sys(lock: Lock, pc: seq<Pc>)

  // ---- The critical sections ----

  predicate Free(l: Lock) { !l.active && l.readers <= 0 }

  /** One turn of rw_rlock */
  function TryRead(l: Lock): (Lock, Pc) {
    if !l.active && l.waiting == 0 then (l.(readers := l.readers + 1), Reading) else (l, Trying)
  }

  /** rw_runlock */
  function ReadUnlock(l: Lock): Lock {
    l.(readers := l.readers - 1, wlock := l.wlock + if l.readers == 1 && l.waiting > 0 then 1 else 0)
  }

  /** The test at the head of rw_wlock's loop, and what follows it up to the next unlock */
  function WriteCheck(l: Lock): (Lock, Pc) {
    if Free(l) then (l.(waiting := l.waiting - 1, active := true), Writing) else (l, Parked)
  }

  /** rw_wlock up to its first unlock */
  function WriteLock(l: Lock): (Lock, Pc) {
    WriteCheck(l.(waiting := l.waiting + 1))
  }

  /** rw_wunlock */
  function WriteUnlock(l: Lock): Lock {
    l.(active := false, wlock := l.wlock + if l.waiting > 0 then 1 else 0)
  }

  /** The same on the fields of the structure. */
  class RwLockT {
    var readers: int
    var waiting: int
    var active: bool
    var wlock: nat

    ghost function Value(): Lock
      reads this
    {
      Lock(readers, waiting, active, wlock)
    }

    /** rw_init */
    constructor ()
      ensures Value() == Lock(0, 0, false, 0)
    {
      readers, waiting, active, wlock := 0, 0, false, 0;
    }

    method RLockTurn() returns (entered: bool)
      modifies this
      ensures (Value(), if entered then Reading else Trying) == TryRead(old(Value()))
    {
      if !active && waiting == 0 {
        readers := readers + 1;
        return true;
      }
      entered := false;
    }

    method RUnlock()
      modifies this
      ensures Value() == ReadUnlock(old(Value()))
    {
      readers := readers - 1;
      if readers == 0 && waiting > 0 {
        wlock := wlock + 1;
      }
    }

    method WLockEnter() returns (entered: bool)
      modifies this
      ensures (Value(), if entered then Writing else Parked) == WriteLock(old(Value()))
    {
      waiting := waiting + 1;
      entered := WLockRecheck();
    }

    method WLockRecheck() returns (entered: bool)
      modifies this
      ensures (Value(), if entered then Writing else Parked) == WriteCheck(old(Value()))
    {
      if active || readers > 0 { return false; }
      waiting := waiting - 1;
      active := true;
      entered := true;
    }

    method WUnlock()
      modifies this
      ensures Value() == WriteUnlock(old(Value()))
    {
      active := false;
      if waiting > 0 {
        wlock := wlock + 1;
      }
    }
  }

  // ---- Interleavings ----

  /** Thread `i` takes a step of its own choosing. */
  predicate Step(s: Sys, i: int, s': Sys) {
    0 <= i < |s.pc| &&
    match s.pc[i]
    case Idle => s' == s.(pc := s.pc[i := Trying]) || s' == Sys(WriteLock(s.lock).0, s.pc[i := WriteLock(s.lock).1])
    case Trying => s' == Sys(TryRead(s.lock).0, s.pc[i := TryRead(s.lock).1])
    case Reading => s' == Sys(ReadUnlock(s.lock), s.pc[i := Idle])
    case Parked => s.lock.wlock > 0 && s' == Sys(s.lock.(wlock := s.lock.wlock - 1), s.pc[i := Woken])
    case Woken => s' == Sys(WriteCheck(s.lock).0, s.pc[i := WriteCheck(s.lock).1])
    case Writing => s' == Sys(WriteUnlock(s.lock), s.pc[i := Idle])
  }

  predicate Initial(s: Sys) {
    s.lock == Lock(0, 0, false, 0) && forall i :: 0 <= i < |s.pc| ==> s.pc[i] == Idle
  }

  ghost predicate IsRun(states: seq<Sys>, who: seq<int>) {
    |states| == |who| + 1 && forall k :: 0 <= k < |who| ==> Step(states[k], who[k], states[k + 1])
  }

  // ---- Counting threads ----

  function Count(pc: seq<Pc>, x: Pc, n: nat): nat
    requires n <= |pc|
  {
    if n == 0 then 0 else Count(pc, x, n - 1) + if pc[n - 1] == x then 1 else 0
  }

  function All(pc: seq<Pc>, x: Pc): nat { Count(pc, x, |pc|) }

  lemma {:induction false} CountSet(pc: seq<Pc>, i: int, v: Pc, x: Pc, n: nat)
    requires 0 <= i < |pc| && n <= |pc|
    ensures Count(pc[i := v], x, n) ==
      Count(pc, x, n) + (if i < n && v == x then 1 else 0) - (if i < n && pc[i] == x then 1 else 0)
  {
    if n > 0 { CountSet(pc, i, v, x, n - 1); }
  }

  lemma {:induction false} CountNone(pc: seq<Pc>, x: Pc, n: nat)
    requires n <= |pc| && Count(pc, x, n) == 0
    ensures forall i :: 0 <= i < n ==> pc[i] != x
  {
    if n > 0 { CountNone(pc, x, n - 1); }
  }

  lemma {:induction false} CountOne(pc: seq<Pc>, x: Pc, n: nat) returns (i: nat)
    requires n <= |pc| && Count(pc, x, n) > 0
    ensures i < n && pc[i] == x
  {
    if pc[n - 1] == x { i := n - 1; } else { i := CountOne(pc, x, n - 1); }
  }

  /** Two threads at `x` are counted twice. */
  lemma {:induction false} CountTwo(pc: seq<Pc>, x: Pc, i: int, j: int, n: nat)
    requires 0 <= i < j < n <= |pc| && pc[i] == x && pc[j] == x
    ensures Count(pc, x, n) >= 2
  {
    if j < n - 1 { CountTwo(pc, x, i, j, n - 1); } else { CountAny(pc, x, i, n - 1); }
  }

  lemma {:induction false} CountAny(pc: seq<Pc>, x: Pc, i: int, n: nat)
    requires 0 <= i < n <= |pc| && pc[i] == x
    ensures Count(pc, x, n) >= 1
  {
    if i < n - 1 { CountAny(pc, x, i, n - 1); }
  }

  // ---- What every step keeps ----

  /** The counters count, a writer excludes everybody else, and a free lock with waiting writers has a wakeup
      pending or on its way. */
  ghost predicate Inv(s: Sys) {
    && s.lock.readers == All(s.pc, Reading)
    && s.lock.waiting == All(s.pc, Parked) + All(s.pc, Woken)
    && All(s.pc, Writing) == (if s.lock.active then 1 else 0)
    && (s.lock.active ==> s.lock.readers == 0)
    && (Free(s.lock) && s.lock.waiting > 0 ==> s.lock.wlock > 0 || All(s.pc, Woken) > 0)
  }

  lemma {:induction false} NoneYet(pc: seq<Pc>, x: Pc, n: nat)
    requires n <= |pc| && x != Idle && forall i :: 0 <= i < |pc| ==> pc[i] == Idle
    ensures Count(pc, x, n) == 0
  {
    if n > 0 { NoneYet(pc, x, n - 1); }
  }

  lemma InitialInv(s: Sys)
    requires Initial(s)
    ensures Inv(s)
  {
    NoneYet(s.pc, Reading, |s.pc|);
    NoneYet(s.pc, Parked, |s.pc|);
    NoneYet(s.pc, Woken, |s.pc|);
    NoneYet(s.pc, Writing, |s.pc|);
  }

  lemma StepInv(s: Sys, i: int, s': Sys)
    requires Inv(s) && Step(s, i, s')
    ensures Inv(s')
  {
    var v := s'.pc[i];
    assert s'.pc == s.pc[i := v];
    CountSet(s.pc, i, v, Reading, |s.pc|);
    CountSet(s.pc, i, v, Parked, |s.pc|);
    CountSet(s.pc, i, v, Woken, |s.pc|);
    CountSet(s.pc, i, v, Writing, |s.pc|);
    CountAny(s.pc, s.pc[i], i, |s.pc|);
  }

  lemma {:induction false} RunInv(states: seq<Sys>, who: seq<int>, k: nat)
    requires IsRun(states, who) && Initial(states[0]) && k <= |who|
    ensures Inv(states[k])
  {
    if k == 0 { InitialInv(states[0]); } else {
      RunInv(states, who, k - 1);
      StepInv(states[k - 1], who[k - 1], states[k]);
    }
  }

  /** In every state of every run: no two writers, and no reader beside a writer. */
  lemma MutualExclusion(states: seq<Sys>, who: seq<int>, k: nat, i: int, j: int)
    requires IsRun(states, who) && Initial(states[0]) && k <= |who|
    requires 0 <= i < |states[k].pc| && 0 <= j < |states[k].pc| && i != j && states[k].pc[i] == Writing
    ensures states[k].pc[j] != Writing && states[k].pc[j] != Reading
  {
    RunInv(states, who, k);
    var s := states[k];
    CountAny(s.pc, Writing, i, |s.pc|);
    CountNone(s.pc, Reading, |s.pc|);
    if s.pc[j] == Writing { CountTwo(s.pc, Writing, if i < j then i else j, if i < j then j else i, |s.pc|); }
  }

  predicate Waits(p: Pc) { p == Parked || p == Woken }

  lemma WaitingCounted(s: Sys, w: int)
    requires Inv(s) && 0 <= w < |s.pc| && Waits(s.pc[w])
    ensures s.lock.waiting > 0
  {
    CountAny(s.pc, s.pc[w], w, |s.pc|);
  }

  /** Thread `w` waits to write, thread `j` reads. */
  predicate WaitsIn(s: Sys, w: int) { 0 <= w < |s.pc| && Waits(s.pc[w]) }

  predicate ReadsIn(s: Sys, j: int) { 0 <= j < |s.pc| && s.pc[j] == Reading }

  /** While writer `w` waits, readers may leave but none enters. */
  lemma {:induction false} WriterPriority(states: seq<Sys>, who: seq<int>, a: nat, b: nat, w: int, j: int)
    requires IsRun(states, who) && Initial(states[0]) && a <= b <= |who|
    requires forall k :: a <= k < b ==> WaitsIn(states[k], w)
    requires ReadsIn(states[b], j)
    ensures ReadsIn(states[a], j)
    decreases b - a
  {
    if a < b {
      var s, s' := states[b - 1], states[b];
      RunInv(states, who, b - 1);
      assert Step(s, who[b - 1], s');
      assert WaitsIn(s, w);
      WaitingCounted(s, w);
      assert ReadsIn(s, j);
      WriterPriority(states, who, a, b - 1, w, j);
    }
  }

  // ---- No lost wakeup, no deadlock ----

  /** Thread `i` can take a step. */
  ghost predicate Enabled(s: Sys, i: int) {
    exists s' :: Step(s, i, s')
  }

  lemma EnabledIff(s: Sys, i: int)
    requires 0 <= i < |s.pc|
    ensures Enabled(s, i) <==> s.pc[i] != Parked || s.lock.wlock > 0
  {
    match s.pc[i]
    case Idle => assert Step(s, i, s.(pc := s.pc[i := Trying]));
    case Trying => assert Step(s, i, Sys(TryRead(s.lock).0, s.pc[i := TryRead(s.lock).1]));
    case Reading => assert Step(s, i, Sys(ReadUnlock(s.lock), s.pc[i := Idle]));
    case Parked =>
      if s.lock.wlock > 0 { assert Step(s, i, Sys(s.lock.(wlock := s.lock.wlock - 1), s.pc[i := Woken])); }
    case Woken => assert Step(s, i, Sys(WriteCheck(s.lock).0, s.pc[i := WriteCheck(s.lock).1]));
    case Writing => assert Step(s, i, Sys(WriteUnlock(s.lock), s.pc[i := Idle]));
  }

  /** A free lock with a waiting writer: within two steps of one waiting writer that writer is inside. */
  lemma WriterGetsIn(s: Sys) returns (w: nat, s1: Sys, s2: Sys)
    requires Inv(s) && Free(s.lock) && s.lock.waiting > 0
    ensures w < |s.pc| && Waits(s.pc[w]) && s2.pc == s.pc[w := Writing] && s2.lock.active
    ensures (s1 == s && Step(s, w, s2)) || (Step(s, w, s1) && Step(s1, w, s2))
  {
    if All(s.pc, Woken) > 0 {
      w := CountOne(s.pc, Woken, |s.pc|);
      s1 := s;
      s2 := Sys(WriteCheck(s.lock).0, s.pc[w := WriteCheck(s.lock).1]);
    } else {
      w := CountOne(s.pc, Parked, |s.pc|);
      s1 := Sys(s.lock.(wlock := s.lock.wlock - 1), s.pc[w := Woken]);
      s2 := Sys(WriteCheck(s1.lock).0, s1.pc[w := WriteCheck(s1.lock).1]);
      assert s2.pc == s.pc[w := Writing];
    }
  }

  /** Whenever a writer waits, some thread can take a step that is not a failed turn of the readers' spin: it
      leaves the lock, or brings a waiting writer in or nearer. */
  lemma NoDeadlock(s: Sys, w: int) returns (i: nat)
    requires Inv(s) && 0 <= w < |s.pc| && Waits(s.pc[w])
    ensures i < |s.pc| && Enabled(s, i) && (s.pc[i] == Writing || s.pc[i] == Reading || Waits(s.pc[i]))
  {
    WaitingCounted(s, w);
    if s.lock.active {
      i := CountOne(s.pc, Writing, |s.pc|);
    } else if s.lock.readers > 0 {
      i := CountOne(s.pc, Reading, |s.pc|);
    } else {
      var s1, s2;
      i, s1, s2 := WriterGetsIn(s);
    }
    EnabledIff(s, i);
  }

  // ---- The semaphore is not binary ----

  /** `s'` can be reached from `s`. */
  ghost predicate Reaches(s: Sys, s': Sys) {
    exists states, who :: Path(states, who, s, s')
  }

  ghost predicate Path(states: seq<Sys>, who: seq<int>, s: Sys, s': Sys) {
    IsRun(states, who) && states[0] == s && states[|who|] == s'
  }

  lemma ReachesStep(s: Sys, s1: Sys, i: int, s2: Sys)
    requires Reaches(s, s1) && Step(s1, i, s2)
    ensures Reaches(s, s2)
  {
    var states, who :| Path(states, who, s, s1);
    var states', who' := states + [s2], who + [i];
    forall k | 0 <= k < |who'| ensures Step(states'[k], who'[k], states'[k + 1]) {
      if k < |who| { assert Step(states[k], who[k], states[k + 1]); }
    }
    assert Path(states', who', s, s2);
  }

  /** Threads 0 and 1 at `a` and `b`, the others idle. */
  function Two(a: Pc, b: Pc, n: nat): (pc: seq<Pc>)
    requires n >= 2
    ensures |pc| == n && pc[0] == a && pc[1] == b && forall i :: 2 <= i < n ==> pc[i] == Idle
  {
    [a, b] + seq(n - 2, _ => Idle)
  }

  function Fresh(n: nat): Sys { Sys(Lock(0, 0, false, 0), seq(n, _ => Idle)) }

  /** A writer that comes back before the one it woke has rechecked posts again: with two threads or more any count
      can be reached. */
  lemma {:induction false} SemaphoreGrows(n: nat, k: nat)
    requires n >= 2
    ensures Reaches(Fresh(n), Sys(Lock(0, 1, true, k), Two(Writing, Parked, n)))
  {
    var s0 := Fresh(n);
    if k == 0 {
      assert Path([s0], [], s0, s0);
      var s1 := Sys(Lock(0, 0, true, 0), Two(Writing, Idle, n));
      assert s0.pc[0 := Writing] == s1.pc && s1.pc[1 := Parked] == Two(Writing, Parked, n);
      ReachesStep(s0, s0, 0, s1);
      ReachesStep(s0, s1, 1, Sys(Lock(0, 1, true, 0), Two(Writing, Parked, n)));
    } else {
      SemaphoreGrows(n, k - 1);
      var s1 := Sys(Lock(0, 1, true, k - 1), Two(Writing, Parked, n));
      var s2 := Sys(Lock(0, 1, false, k), Two(Idle, Parked, n));
      assert s1.pc[0 := Idle] == s2.pc && s2.pc[0 := Writing] == s1.pc;
      ReachesStep(s0, s1, 0, s2);
      ReachesStep(s0, s2, 0, Sys(Lock(0, 1, true, k), Two(Writing, Parked, n)));
    }
  }

  /** A thread that is alone never waits. */
  predicate Alone(s: Sys) {
    s.lock.wlock == 0 && s.lock.waiting == 0 && forall i :: 0 <= i < |s.pc| ==> !Waits(s.pc[i])
  }

  lemma AloneStep(s: Sys, i: int, s': Sys)
    requires Inv(s) && |s.pc| <= 1 && Alone(s) && Step(s, i, s')
    ensures Alone(s') && |s'.pc| == |s.pc|
  {
    assert i == 0 && |s.pc| == 1;
    assert Count(s.pc, Writing, 1) == Count(s.pc, Writing, 0) + if s.pc[0] == Writing then 1 else 0;
    assert Count(s.pc, Reading, 1) == Count(s.pc, Reading, 0) + if s.pc[0] == Reading then 1 else 0;
  }

  lemma {:induction false} AloneRun(states: seq<Sys>, who: seq<int>, k: nat)
    requires IsRun(states, who) && Initial(states[0]) && k <= |who| && |states[0].pc| <= 1
    ensures |states[k].pc| == |states[0].pc| && Alone(states[k])
  {
    if k > 0 {
      AloneRun(states, who, k - 1);
      RunInv(states, who, k - 1);
      AloneStep(states[k - 1], who[k - 1], states[k]);
    }
  }

  /** The semaphore's value stays at most `c` in every run of `n` threads. */
  ghost predicate Bounded(n: nat, c: nat) {
    forall states: seq<Sys>, who: seq<int> :: IsRun(states, who) && Initial(states[0]) && |states[0].pc| == n ==>
      states[|who|].lock.wlock <= c
  }

  /** The semaphore is binary, or has any bound at all, exactly when there is at most one thread. */
  lemma SemaphoreBoundedIff(n: nat, c: nat)
    ensures Bounded(n, c) <==> n <= 1
  {
    if n <= 1 {
      forall states: seq<Sys>, who: seq<int> | IsRun(states, who) && Initial(states[0]) && |states[0].pc| == n
        ensures states[|who|].lock.wlock <= c
      {
        AloneRun(states, who, |who|);
      }
    } else {
      SemaphoreGrows(n, c + 1);
      var t := Sys(Lock(0, 1, true, c + 1), Two(Writing, Parked, n));
      var states: seq<Sys>, who: seq<int> :| Path(states, who, Fresh(n), t);
      assert Initial(states[0]) && states[|who|].lock.wlock > c;
    }
  }
}
