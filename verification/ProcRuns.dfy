/** Pids and reaping, give_cpu, and the STCF accounting, over whole runs. */
module ProcRuns {
  import opened ProcTable
  import opened ProcMachine
  import opened ProcTheorems

  // ---- Pids ----

  predicate Used(s: Sys, i: int) { 0 <= i < |s.procs| && s.procs[i].state != UNUSED }

  /** Pids in use are distinct, below the next one, and were never returned by wait. */
  ghost predicate Pids(s: Sys) {
    && (forall i :: Used(s, i) ==> 0 < s.procs[i].pid < s.nextpid && s.procs[i].pid !in s.reaped)
    && (forall i, j :: Used(s, i) && Used(s, j) && s.procs[i].pid == s.procs[j].pid ==> i == j)
    && (forall x :: x in s.reaped ==> x < s.nextpid) && s.nextpid > 0
  }

  /** Same slots in use, with the same pids. */
  predicate SamePids(s: Sys, s': Sys) {
    && |s'.procs| == |s.procs| && s'.nextpid == s.nextpid && s'.reaped == s.reaped
    && forall i :: 0 <= i < |s.procs| ==>
       s'.procs[i].pid == s.procs[i].pid && (s'.procs[i].state == UNUSED <==> s.procs[i].state == UNUSED)
  }

  lemma SamePidsOk(s: Sys, s': Sys)
    requires Pids(s) && SamePids(s, s')
    ensures Pids(s')
  {
    assert forall i :: Used(s', i) == Used(s, i);
  }

  lemma SpawnPids(s: Sys, i: nat, remain: int)
    requires Runs(s) && Pids(s) && s.cur >= 0 && i < |s.procs| && s.procs[i].state == UNUSED
    ensures Pids(Spawn(s, i, remain))
  {
    var s' := Spawn(s, i, remain);
    assert forall j :: Used(s', j) ==> j == i || Used(s, j);
  }

  lemma AbandonPids(s: Sys, i: nat)
    requires Runs(s) && Pids(s) && i < |s.procs| && s.procs[i].state == UNUSED
    ensures Pids(Abandon(s, i))
  {
    var s' := Abandon(s, i);
    assert forall j :: Used(s', j) ==> Used(s, j) && j != i;
  }

  lemma ReapPids(s: Sys, z: nat)
    requires Runs(s) && Pids(s) && z < |s.procs| && s.procs[z].state == ZOMBIE
    ensures Pids(Reap(s, z)) && s.procs[z].pid !in s.reaped
  {
    var s' := Reap(s, z);
    assert Used(s, z);
    assert forall j :: Used(s', j) ==> Used(s, j) && j != z;
  }

  lemma SwitchPids(s: Sys, st: PState, c: Chan)
    requires Runs(s) && Pids(s) && s.cur >= 0 && st != UNUSED
    ensures Pids(SwitchOut(s, st, c))
  {
    SamePidsOk(s, SwitchOut(s, st, c));
  }

  lemma ForkPids(s: Sys, ok: bool)
    requires Runs(s) && Pids(s) && s.cur >= 0
    ensures Pids(Step(s, Fork(ok)))
  {
    var i := FreeSlot(s.procs, 0);
    if i < |s.procs| {
      if ok {
        SpawnPids(s, i, s.procs[s.cur].remain);
        var s1 := Spawn(s, i, s.procs[s.cur].remain);
        SwitchPids(s1, RUNNABLE, s1.procs[s.cur].chan);
      } else {
        AbandonPids(s, i);
      }
    }
  }

  lemma PidsStep(s: Sys, e: Event)
    requires Runs(s) && Pids(s) && Enabled(s, e)
    ensures Pids(Step(s, e))
  {
    match e
    case Fork(ok) => ForkPids(s, ok);
    case Clone(ok) =>
      var i := FreeSlot(s.procs, 0);
      if i < |s.procs| { if ok { SpawnPids(s, i, INIT_REMAIN); } else { AbandonPids(s, i); } }
    case Wait => WaitPids(s);
    case Exit => ExitPids(s);
    case Kill(pid) => SamePidsOk(s, AfterKill(s, pid));
    case Remain(t) => SamePidsOk(s, AfterRemain(s, t));
    case _ => OtherPids(s, e);
  }

  lemma OtherPids(s: Sys, e: Event)
    requires Runs(s) && Pids(s) && Enabled(s, e)
    requires e.Tick? || e.Dispatch? || e.Yield? || e.GiveCpu? || e.SleepOn? || e.Snooze? || e.Wakeup?
    ensures Pids(Step(s, e))
  {
    SamePidsOk(s, Step(s, e));
  }

  lemma WaitPids(s: Sys)
    requires Runs(s) && Pids(s) && s.cur >= 0
    ensures Pids(AfterWait(s))
  {
    var z := ZombieChild(s.procs, s.cur, 0);
    if z < |s.procs| { ReapPids(s, z); } else { SamePidsOk(s, AfterWait(s)); }
  }

  lemma ExitPids(s: Sys)
    requires Runs(s) && Pids(s) && s.cur >= 0
    ensures Pids(AfterExit(s))
  {
    var s' := AfterExit(s);
    var procs1 := Wake(s.procs, ParentChan(s.procs[s.cur].parent));
    var procs2 := Orphan(procs1, s.cur, s.init);
    assert forall i :: 0 <= i < |s.procs| ==>
      procs2[i].pid == s.procs[i].pid && (procs2[i].state == UNUSED <==> s.procs[i].state == UNUSED);
    SamePidsOk(s, s');
  }

  // ---- give_cpu ----

  /** Only skip_target is marked; it is in use, and it is the running process if one runs. */
  predicate Skips(s: Sys) {
    && (forall i :: 0 <= i < |s.procs| && s.procs[i].skip ==> i == s.target)
    && (s.target >= 0 ==> Used(s, s.target))
    && (s.cur >= 0 ==> s.target == -1 || s.target == s.cur)
  }

  predicate SameSkips(procs: seq<Proc>, procs': seq<Proc>) {
    && |procs'| == |procs|
    && forall i :: 0 <= i < |procs| ==>
       procs'[i].skip == procs[i].skip && (procs[i].state != UNUSED ==> procs'[i].state != UNUSED)
  }

  lemma SkipsSwitch(s: Sys, st: PState, c: Chan)
    requires Runs(s) && Skips(s) && s.cur >= 0 && st != UNUSED
    ensures Skips(SwitchOut(s, st, c))
  {
  }

  lemma SkipsExit(s: Sys)
    requires Runs(s) && Skips(s) && s.cur >= 0
    ensures Skips(AfterExit(s))
  {
    var procs1 := Wake(s.procs, ParentChan(s.procs[s.cur].parent));
    var procs2 := Orphan(procs1, s.cur, s.init);
    assert SameSkips(s.procs, procs1);
    assert SameSkips(procs1, procs2);
  }

  lemma SkipsFork(s: Sys, ok: bool)
    requires Runs(s) && Skips(s) && s.cur >= 0
    ensures Skips(Step(s, Fork(ok)))
  {
    var i := FreeSlot(s.procs, 0);
    if i < |s.procs| && ok {
      var s1 := Spawn(s, i, s.procs[s.cur].remain);
      SkipsSwitch(s1, RUNNABLE, s1.procs[s.cur].chan);
    }
  }

  lemma SkipsTable(s: Sys, e: Event)
    requires Runs(s) && Skips(s) && Enabled(s, e)
    requires (e.Tick? || e.Wakeup? || e.Kill? || e.Clone? || e.Remain? || e.Wait?)
    ensures Skips(Step(s, e))
  {
  }

  lemma SkipsStep(s: Sys, e: Event)
    requires Runs(s) && Skips(s) && Enabled(s, e)
    ensures Skips(Step(s, e))
  {
    match e
    case Exit => SkipsExit(s);
    case Fork(ok) => SkipsFork(s, ok);
    case Yield => SkipsSwitch(s, RUNNABLE, s.procs[s.cur].chan);
    case SleepOn(c) => SkipsSwitch(s, SLEEPING, c);
    case Snooze(n) =>
    case GiveCpu =>
    case Dispatch =>
    case _ => SkipsTable(s, e);
  }

  predicate Runnable(s: Sys, i: int) { 0 <= i < |s.procs| && s.procs[i].state == RUNNABLE }

  predicate Other(s: Sys, i: int) { Runnable(s, i) && i != s.target }

  /** Each decision takes, among the runnable processes other than skip_target, the one with the least time
      remaining, the higher pid deciding ties; skip_target itself only when there is no other; nobody when there is
      nobody.  The skip is spent as soon as somebody else is dispatched. */
  lemma Decision(s: Sys)
    requires Runs(s) && Skips(s) && Pids(s) && s.cur < 0
    ensures var s' := RunNext(s); var b := s'.cur;
      && (b >= 0 <==> exists i :: Runnable(s, i))
      && (b >= 0 ==> Runnable(s, b))
      && ((exists i :: Other(s, i)) ==>
            && Other(s, b) && (forall i :: Other(s, i) && i != b ==> Better(s.procs[b], s.procs[i]))
            && s'.target == -1 && (forall i :: 0 <= i < |s.procs| ==> !s'.procs[i].skip))
      && (b >= 0 && b == s.target ==> s'.target == b && s'.procs[b].skip == s.procs[b].skip)
  {
    var n, b := |s.procs|, Pick(s.procs, s.target);
    assert forall i :: 0 <= i < n ==> (Eligible(s.procs, s.target, false, i) <==> Other(s, i));
    assert forall i :: 0 <= i < n ==> (Eligible(s.procs, s.target, true, i) <==> Runnable(s, i));
    if i :| Other(s, i) {
      assert Eligible(s.procs, s.target, false, i);
      forall j | Other(s, j) && j != b ensures Better(s.procs[b], s.procs[j]) {
        assert Eligible(s.procs, s.target, false, j) && Used(s, j) && Used(s, b);
      }
    }
    if i :| Runnable(s, i) { assert Eligible(s.procs, s.target, true, i); }
  }

  // ---- CPU time ----

  const LIMIT: nat := 0x8000_0000 // 2^31

  /** Slot `i` was charged every tick it ran up to its last switch, once; its time remaining is its budget less
      that, and leaves room for the ticks still to be charged. */
  predicate Timed(s: Sys, i: int)
    requires Shaped(s) && 0 <= i < |s.procs|
  {
    var p := s.procs[i];
    && p.remain == s.grant[i] - s.charged[i] && p.remain <= INIT_REMAIN
    && (if i == s.cur then 0 <= p.last <= s.ticks && p.remain >= 1 - p.last &&
        s.ran[i] == s.charged[i] + (s.ticks - p.last)
        else p.remain >= 1 - s.ticks && s.ran[i] == s.charged[i])
  }

  ghost predicate Time(s: Sys) {
    && Shaped(s) && s.ticks < LIMIT
    && forall i :: Used(s, i) ==> Timed(s, i)
  }

  /** Nothing about time changed, except that slots may have fallen out of use. */
  predicate SameTime(s: Sys, s': Sys) {
    && Shaped(s) && Shaped(s') && |s'.procs| == |s.procs| && s'.cur == s.cur && s'.ticks == s.ticks
    && s'.ran == s.ran && s'.charged == s.charged && s'.grant == s.grant
    && forall i :: 0 <= i < |s.procs| ==>
         && s'.procs[i].remain == s.procs[i].remain && s'.procs[i].last == s.procs[i].last
         && (s.procs[i].state == UNUSED ==> s'.procs[i].state == UNUSED)
  }

  lemma SameTimeOk(s: Sys, s': Sys)
    requires Time(s) && SameTime(s, s')
    ensures Time(s')
  {
    forall i | Used(s', i) ensures Timed(s', i) { assert Used(s, i); }
  }

  /** Leaving the CPU charges the burst, from dispatch to now, to the process that leaves and to nobody else. */
  lemma SwitchTime(s: Sys, st: PState, c: Chan)
    requires Runs(s) && Time(s) && s.cur >= 0 && st != UNUSED
    ensures var s' := SwitchOut(s, st, c);
      && Time(s') && s'.procs[s.cur].remain == s.procs[s.cur].remain - (s.ticks - s.procs[s.cur].last)
      && forall i :: 0 <= i < |s.procs| && i != s.cur ==> s'.procs[i] == s.procs[i]
  {
    var s' := SwitchOut(s, st, c);
    assert Used(s, s.cur);
    ChargeExact(s.procs[s.cur], s.ticks);
    forall i | Used(s', i) ensures Timed(s', i) { assert Used(s, i); }
  }

  lemma TickTime(s: Sys)
    requires Runs(s) && Time(s) && s.ticks + 1 < LIMIT
    ensures Time(AfterTick(s))
  {
    var s' := AfterTick(s);
    forall i | Used(s', i) ensures Timed(s', i) {
      assert s'.procs[i] == Notified(s.procs[i]);
      assert Used(s, i);
    }
  }

  lemma DispatchTime(s: Sys)
    requires Runs(s) && Time(s) && s.cur < 0
    ensures Time(RunNext(s))
  {
    var s' := RunNext(s);
    forall i | Used(s', i) ensures Timed(s', i) { assert Used(s, i); }
  }

  lemma SpawnTime(s: Sys, i: nat, remain: int)
    requires Runs(s) && Time(s) && s.cur >= 0 && i < |s.procs| && s.procs[i].state == UNUSED
    requires 1 - s.ticks <= remain <= INIT_REMAIN
    ensures Time(Spawn(s, i, remain)) && Runs(Spawn(s, i, remain))
  {
    var s' := Spawn(s, i, remain);
    forall j | Used(s', j) ensures Timed(s', j) { assert j != i ==> Used(s, j); }
  }

  lemma ForkTime(s: Sys, ok: bool)
    requires Runs(s) && Time(s) && s.cur >= 0
    ensures Time(Step(s, Fork(ok)))
  {
    var i := FreeSlot(s.procs, 0);
    if i < |s.procs| {
      if ok {
        assert Used(s, s.cur) && Timed(s, s.cur);
        SpawnTime(s, i, s.procs[s.cur].remain);
        var s1 := Spawn(s, i, s.procs[s.cur].remain);
        SwitchTime(s1, RUNNABLE, s1.procs[s.cur].chan);
      } else {
        SameTimeOk(s, Abandon(s, i));
      }
    }
  }

  lemma RemainTime(s: Sys, t: int)
    requires Runs(s) && Time(s) && s.cur >= 0 && t <= INIT_REMAIN
    ensures Time(AfterRemain(s, t))
  {
    if t > 0 {
      var s1 := s.(procs := s.procs[s.cur := s.procs[s.cur].(remain := t)],
        grant := s.grant[s.cur := t + s.charged[s.cur]]);
      forall i | Used(s1, i) ensures Timed(s1, i) { assert Used(s, i) && Timed(s, i); }
      if t > s.procs[s.cur].remain { SwitchTime(s1, RUNNABLE, s.procs[s.cur].chan); }
    }
  }

  lemma ExitTime(s: Sys)
    requires Runs(s) && Time(s) && s.cur >= 0
    ensures Time(AfterExit(s))
  {
    var procs1 := Wake(s.procs, ParentChan(s.procs[s.cur].parent));
    var s2 := s.(procs := Orphan(procs1, s.cur, s.init));
    assert forall i :: 0 <= i < |s.procs| ==>
      s2.procs[i].remain == s.procs[i].remain && s2.procs[i].last == s.procs[i].last &&
      (s2.procs[i].state == s.procs[i].state || (s.procs[i].state == SLEEPING && s2.procs[i].state == RUNNABLE));
    SameTimeOk(s, s2);
    SwitchTime(s2, ZOMBIE, s.procs[s.cur].chan);
  }

  lemma GiveTime(s: Sys)
    requires Runs(s) && Time(s) && s.cur >= 0
    ensures Time(Step(s, GiveCpu))
  {
    var s1 := s.(procs := s.procs[s.cur := s.procs[s.cur].(skip := true)], target := s.cur);
    SameTimeOk(s, s1);
    SwitchTime(s1, RUNNABLE, s.procs[s.cur].chan);
  }

  lemma SnoozeTime(s: Sys, n: int)
    requires Runs(s) && Time(s) && s.cur >= 0
    ensures Time(Step(s, Snooze(n)))
  {
    var s1 := s.(procs := s.procs[s.cur := s.procs[s.cur].(sleepticks := n)]);
    SameTimeOk(s, s1);
    SwitchTime(s1, SLEEPING, OnTicks);
  }

  lemma WaitTime(s: Sys)
    requires Runs(s) && Time(s) && s.cur >= 0
    ensures Time(AfterWait(s))
  {
    var z := ZombieChild(s.procs, s.cur, 0);
    if z < |s.procs| {
      SameTimeOk(s, Reap(s, z));
    } else if HasKids(s.procs, s.cur, |s.procs|) && !s.procs[s.cur].killed {
      SwitchTime(s, SLEEPING, OfProc(s.cur));
    }
  }

  /** While the tick count is below 2^31 every step keeps the accounts, and no charge overflows. */
  lemma TimeStep(s: Sys, e: Event)
    requires Runs(s) && Time(s) && Enabled(s, e) && (e.Tick? ==> s.ticks + 1 < LIMIT)
    ensures Time(Step(s, e))
  {
    match e
    case Tick => TickTime(s);
    case Dispatch => DispatchTime(s);
    case Yield => SwitchTime(s, RUNNABLE, s.procs[s.cur].chan);
    case GiveCpu => GiveTime(s);
    case SleepOn(c) => SwitchTime(s, SLEEPING, c);
    case Snooze(n) => SnoozeTime(s, n);
    case Wakeup(c) => SameTimeOk(s, Step(s, e));
    case Fork(ok) => ForkTime(s, ok);
    case Clone(ok) =>
      var i := FreeSlot(s.procs, 0);
      if i < |s.procs| { if ok { SpawnTime(s, i, INIT_REMAIN); } else { SameTimeOk(s, Abandon(s, i)); } }
    case Exit => ExitTime(s);
    case Wait => WaitTime(s);
    case Kill(pid) => SameTimeOk(s, AfterKill(s, pid));
    case Remain(t) => RemainTime(s, t);
  }

  /** The scheduler ranks process `i` before process `j`. */
  predicate Ahead(s: Sys, i: int, j: int)
    requires 0 <= i < |s.procs| && 0 <= j < |s.procs|
  {
    i != s.target && (j == s.target || Better(s.procs[i], s.procs[j]))
  }

  /** The ranking is what decides: the process dispatched is the runnable one ranked before all others. */
  lemma RanksDecide(s: Sys, i: int)
    requires Runs(s) && Skips(s) && Pids(s) && s.cur < 0 && 0 <= i < |s.procs|
    ensures RunNext(s).cur == i <==> Runnable(s, i) && forall j :: Runnable(s, j) && j != i ==> Ahead(s, i, j)
  {
    Decision(s);
    var b := RunNext(s).cur;
    if b >= 0 {
      forall j | Runnable(s, j) && j != b ensures Ahead(s, b, j) {
        assert Other(s, j) ==> Other(s, b) && Better(s.procs[b], s.procs[j]);
      }
      assert !(Ahead(s, i, b) && Ahead(s, b, i));
    }
    assert Runnable(s, i) ==> b >= 0;
  }

  /** The child of a fork runs as soon as the parent gives way to it. */
  predicate GivesWay(s: Sys)
    requires Shaped(s) && s.cur >= 0
  {
    s.target == s.cur || s.ticks == s.procs[s.cur].last
  }

  /** After a fork the scheduler ranks the child before the parent exactly when the parent was dispatched in this very
      tick or is still to be skipped, and otherwise the parent before the child. */
  lemma ForkPreference(s: Sys)
    requires Runs(s) && Time(s) && Pids(s) && Skips(s) && s.cur >= 0 && FreeSlot(s.procs, 0) < |s.procs|
    ensures var s' := Step(s, Fork(true)); var child := FreeSlot(s.procs, 0);
      && Runnable(s', child) && Runnable(s', s.cur) && s'.procs[child].remain == s.procs[s.cur].remain
      && (Ahead(s', child, s.cur) <==> GivesWay(s)) && (Ahead(s', s.cur, child) <==> !GivesWay(s))
  {
    var i := FreeSlot(s.procs, 0);
    assert Used(s, s.cur) && Timed(s, s.cur);
    SpawnTime(s, i, s.procs[s.cur].remain);
    var s1 := Spawn(s, i, s.procs[s.cur].remain);
    SwitchTime(s1, RUNNABLE, s1.procs[s.cur].chan);
  }

  /** The next decision takes the child exactly when the parent gives way and no runnable process has less time
      remaining than the parent had. */
  lemma ForkDecision(s: Sys)
    requires Runs(s) && Time(s) && Pids(s) && Skips(s) && s.cur >= 0 && FreeSlot(s.procs, 0) < |s.procs|
    ensures var s' := Step(s, Fork(true)); var child := FreeSlot(s.procs, 0);
      RunNext(s').cur == child <==>
      GivesWay(s) && forall j :: Runnable(s, j) ==> s.procs[s.cur].remain <= s.procs[j].remain
  {
    var s', child := Step(s, Fork(true)), FreeSlot(s.procs, 0);
    ForkPreference(s);
    ForkPids(s, true);
    SkipsFork(s, true);
    ForkOthers(s);
    RanksDecide(s', child);
    if GivesWay(s) && forall j :: Runnable(s, j) ==> s.procs[s.cur].remain <= s.procs[j].remain {
      forall j | Runnable(s', j) && j != child ensures Ahead(s', child, j) {
        if j != s.cur { assert Runnable(s, j) && Used(s, j); }
      }
    }
    if RunNext(s').cur == child {
      forall j | Runnable(s, j) ensures s.procs[s.cur].remain <= s.procs[j].remain {
        assert Runnable(s', j) && Ahead(s', child, j) && j != s.cur;
      }
    }
  }

  /** A fork leaves the processes other than the two as they were. */
  lemma ForkOthers(s: Sys)
    requires Runs(s) && Time(s) && s.cur >= 0 && FreeSlot(s.procs, 0) < |s.procs|
    ensures var s' := Step(s, Fork(true)); var child := FreeSlot(s.procs, 0);
      && Runs(s') && s'.target == s.target && s'.cur < 0 && |s'.procs| == |s.procs|
      && s'.procs[child].pid == s.nextpid && s'.procs[child].remain == s.procs[s.cur].remain
      && (forall j :: 0 <= j < |s.procs| && j != child && j != s.cur ==> s'.procs[j] == s.procs[j])
  {
  }

  // ---- Whole runs ----

  predicate Leads(s: Sys, e: Event, s': Sys) {
    Shaped(s) && Enabled(s, e) && s' == Step(s, e)
  }

  ghost predicate IsRun(states: seq<Sys>, events: seq<Event>) {
    |states| == |events| + 1 && forall k :: 0 <= k < |events| ==> Leads(states[k], events[k], states[k + 1])
  }

  ghost predicate Inv(s: Sys) { Family(s) && Pids(s) && Skips(s) }

  lemma InitialInv(s: Sys)
    requires Initial(s)
    ensures Inv(s) && Time(s)
  {
    forall i | 0 <= i < |s.procs| ensures Slot(s, i) {
    }
    forall i | Used(s, i) ensures Timed(s, i) { assert i == s.init; }
  }

  lemma StepInv(s: Sys, e: Event)
    requires Inv(s) && Enabled(s, e)
    ensures Inv(Step(s, e))
  {
    FamilyStep(s, e);
    PidsStep(s, e);
    SkipsStep(s, e);
  }

  /** In every state of every run: no process sleeps in wait while one of its children is a zombie, parents are
      alive, pids are unique and never reaped twice, and only the process that asked for it is skipped. */
  lemma {:induction false} RunInv(states: seq<Sys>, events: seq<Event>, k: nat)
    requires IsRun(states, events) && Initial(states[0]) && k <= |events|
    ensures Inv(states[k])
  {
    if k == 0 { InitialInv(states[0]); } else {
      RunInv(states, events, k - 1);
      assert Leads(states[k - 1], events[k - 1], states[k]);
      StepInv(states[k - 1], events[k - 1]);
    }
  }

  /** And as long as fewer than 2^31 ticks have passed, every tick a process ran is charged to it exactly once. */
  lemma {:induction false} RunTime(states: seq<Sys>, events: seq<Event>, k: nat)
    requires IsRun(states, events) && Initial(states[0]) && k <= |events|
    requires forall j :: 0 <= j <= k ==> states[j].ticks < LIMIT
    ensures Time(states[k])
  {
    if k == 0 { InitialInv(states[0]); } else {
      RunTime(states, events, k - 1);
      RunInv(states, events, k - 1);
      TimeLeads(states[k - 1], events[k - 1], states[k]);
    }
  }

  lemma TimeLeads(s: Sys, e: Event, s': Sys)
    requires Inv(s) && Time(s) && Leads(s, e, s') && s'.ticks < LIMIT
    ensures Time(s')
  {
    TimeStep(s, e);
  }

  /** Call `k` of the run is a wait that returns `pid`. */
  predicate Returns(states: seq<Sys>, events: seq<Event>, k: nat, pid: int)
    requires |states| == |events| + 1 && k < |events|
  {
    && events[k] == Wait
    && var s := states[k]; var z := ZombieChild(s.procs, s.cur, 0); z < |s.procs| && s.procs[z].pid == pid
  }

  lemma {:induction false} ReapedGrows(states: seq<Sys>, events: seq<Event>, j: nat, k: nat)
    requires IsRun(states, events) && j <= k <= |events|
    ensures states[j].reaped <= states[k].reaped
    decreases k - j
  {
    if j < k {
      ReapedGrows(states, events, j, k - 1);
      assert Leads(states[k - 1], events[k - 1], states[k]);
    }
  }

  /** No two waits of a run return the same pid. */
  lemma ReapedOnce(states: seq<Sys>, events: seq<Event>, j: nat, k: nat, pid: int)
    requires IsRun(states, events) && Initial(states[0]) && j < k < |events|
    requires Returns(states, events, j, pid)
    ensures !Returns(states, events, k, pid)
  {
    assert Leads(states[j], events[j], states[j + 1]);
    assert pid in states[j + 1].reaped;
    ReapedGrows(states, events, j + 1, k);
    RunInv(states, events, k);
    var s := states[k];
    var z := ZombieChild(s.procs, s.cur, 0);
    if z < |s.procs| { ReapPids(s, z); }
  }

  // ---- The three cases of a fork, from boot ----

  /** A run that ends with a fork and the decision after it; `t` is the state before the fork. */
  ghost predicate ForkRun(states: seq<Sys>, events: seq<Event>, t: Sys) {
    && IsRun(states, events) && |events| >= 2 && Initial(states[0])
    && events[|events| - 2] == Fork(true) && events[|events| - 1] == Dispatch
    && t == states[|events| - 2] && Shaped(t) && t.cur >= 0 && FreeSlot(t.procs, 0) < |t.procs|
  }

  /** Init runs, every other slot is free. */
  predicate OnlyInit(s: Sys) {
    && Shaped(s) && s.cur == s.init && s.procs[s.init].state == RUNNING
    && forall i :: 0 <= i < |s.procs| && i != s.init ==> s.procs[i].state == UNUSED
  }

  lemma BootDispatch(s: Sys)
    requires Inv(s) && Time(s) && s.cur < 0 && s.ticks == 0
    requires s.procs[s.init].state == RUNNABLE && forall i :: 0 <= i < |s.procs| && i != s.init ==>
      s.procs[i].state == UNUSED
    ensures var s' := Step(s, Dispatch);
      Inv(s') && Time(s') && OnlyInit(s') && s'.target == s.target && s'.ticks == 0 && s'.procs[s.init].last == 0
      && |s'.procs| == |s.procs|
  {
    StepInv(s, Dispatch);
    TimeStep(s, Dispatch);
    Decision(s);
    assert Runnable(s, s.init);
  }

  /** From a state in which init alone runs, a fork and a decision. */
  lemma ForkEnd(t: Sys)
    requires Inv(t) && Time(t) && OnlyInit(t) && |t.procs| >= 2
    ensures FreeSlot(t.procs, 0) < |t.procs|
    ensures var b := Step(Step(t, Fork(true)), Dispatch).cur;
      if GivesWay(t) then b == FreeSlot(t.procs, 0) else b == t.cur
  {
    var other := if t.init == 0 then 1 else 0;
    assert t.procs[other].state == UNUSED;
    var child, s' := FreeSlot(t.procs, 0), Step(t, Fork(true));
    ForkDecision(t);
    ForkPreference(t);
    ForkOthers(t);
    if !GivesWay(t) {
      ForkPids(t, true);
      SkipsFork(t, true);
      RanksDecide(s', t.cur);
    }
  }

  lemma TickInit(t: Sys)
    requires Inv(t) && Time(t) && OnlyInit(t) && t.ticks == 0
    ensures var t' := Step(t, Tick);
      Inv(t') && Time(t') && OnlyInit(t') && t'.ticks == 1 && t'.procs[t.init].last == t.procs[t.init].last
      && t'.target == t.target && |t'.procs| == |t.procs|
  {
    StepInv(t, Tick);
    TimeStep(t, Tick);
  }

  lemma GiveInit(t: Sys)
    requires Inv(t) && Time(t) && OnlyInit(t) && t.ticks == 0
    ensures var s' := Step(t, GiveCpu);
      && Inv(s') && Time(s') && s'.cur < 0 && s'.ticks == 0 && s'.target == t.init && s'.init == t.init
      && |s'.procs| == |t.procs| && s'.procs[t.init].state == RUNNABLE
      && forall i :: 0 <= i < |t.procs| && i != t.init ==> s'.procs[i].state == UNUSED
  {
    StepInv(t, GiveCpu);
    TimeStep(t, GiveCpu);
  }

  lemma Joined(states: seq<Sys>, events: seq<Event>, e: Event)
    requires IsRun(states, events) && Shaped(states[|events|]) && Enabled(states[|events|], e)
    ensures IsRun(states + [Step(states[|events|], e)], events + [e])
  {
    var states', events' := states + [Step(states[|events|], e)], events + [e];
    forall k | 0 <= k < |events'| ensures Leads(states'[k], events'[k], states'[k + 1]) {
      if k < |events| { assert Leads(states[k], events[k], states[k + 1]); }
    }
  }

  lemma EndsWithFork(states: seq<Sys>, events: seq<Event>) returns (states': seq<Sys>, events': seq<Event>)
    requires IsRun(states, events) && Initial(states[0])
    requires var t := states[|events|]; Inv(t) && Time(t) && OnlyInit(t) && |t.procs| >= 2
    ensures var t := states[|events|];
      ForkRun(states', events', t) && states'[0] == states[0]
      && states'[|events'|].cur == if GivesWay(t) then FreeSlot(t.procs, 0) else t.cur
  {
    var t := states[|events|];
    ForkEnd(t);
    ForkOthers(t);
    Joined(states, events, Fork(true));
    states', events' := states + [Step(t, Fork(true))], events + [Fork(true)];
    Joined(states', events', Dispatch);
    states', events' := states' + [Step(Step(t, Fork(true)), Dispatch)], events' + [Dispatch];
  }

  /** A parent that forks in the tick it was dispatched in: the child is next. */
  lemma ForkAtOnce(s: Sys) returns (states: seq<Sys>, events: seq<Event>, t: Sys)
    requires Initial(s) && |s.procs| >= 2
    ensures ForkRun(states, events, t) && states[0] == s && t.target != t.cur && t.ticks == t.procs[t.cur].last
    ensures states[|events|].cur == FreeSlot(t.procs, 0)
  {
    InitialInv(s);
    BootDispatch(s);
    Joined([s], [], Dispatch);
    t := Step(s, Dispatch);
    assert [s] + [t] == [s, t] && [] + [Dispatch] == [Dispatch];
    states, events := EndsWithFork([s, t], [Dispatch]);
  }

  /** A parent that forks a tick later: the parent is next. */
  lemma ForkLater(s: Sys) returns (states: seq<Sys>, events: seq<Event>, t: Sys)
    requires Initial(s) && |s.procs| >= 2
    ensures ForkRun(states, events, t) && states[0] == s && t.target != t.cur && t.ticks > t.procs[t.cur].last
    ensures states[|events|].cur == t.cur
  {
    InitialInv(s);
    BootDispatch(s);
    Joined([s], [], Dispatch);
    var s1 := Step(s, Dispatch);
    assert [s] + [s1] == [s, s1] && [] + [Dispatch] == [Dispatch];
    TickInit(s1);
    t := Step(s1, Tick);
    Joined([s, s1], [Dispatch], Tick);
    assert [s, s1] + [t] == [s, s1, t] && [Dispatch] + [Tick] == [Dispatch, Tick];
    states, events := EndsWithFork([s, s1, t], [Dispatch, Tick]);
  }

  /** Init gives the CPU away and gets it back for want of others. */
  lemma GiveAndBack(s: Sys) returns (s1: Sys, s2: Sys, s3: Sys)
    requires Initial(s)
    ensures IsRun([s, s1, s2, s3], [Dispatch, GiveCpu, Dispatch])
    ensures Inv(s3) && Time(s3) && OnlyInit(s3) && s3.target == s3.cur && s3.ticks == 0 && |s3.procs| == |s.procs|
    ensures s3.procs[s3.init].last == 0
  {
    InitialInv(s);
    BootDispatch(s);
    s1 := Step(s, Dispatch);
    GiveInit(s1);
    s2 := Step(s1, GiveCpu);
    BootDispatch(s2);
    s3 := Step(s2, Dispatch);
  }

  /** A parent that gave the CPU away, got it back for want of others and forks a tick later: the child is next. */
  lemma ForkSkipped(s: Sys) returns (states: seq<Sys>, events: seq<Event>, t: Sys)
    requires Initial(s) && |s.procs| >= 2
    ensures ForkRun(states, events, t) && states[0] == s && t.target == t.cur && t.ticks > t.procs[t.cur].last
    ensures states[|events|].cur == FreeSlot(t.procs, 0)
  {
    var s1, s2, s3 := GiveAndBack(s);
    TickInit(s3);
    t := Step(s3, Tick);
    Joined([s, s1, s2, s3], [Dispatch, GiveCpu, Dispatch], Tick);
    var ss, es := [s, s1, s2, s3] + [t], [Dispatch, GiveCpu, Dispatch] + [Tick];
    states, events := EndsWithFork(ss, es);
  }
}
