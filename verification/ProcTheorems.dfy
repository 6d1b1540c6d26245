/** What holds in every state of every run: families, give_cpu, and the accounting of CPU time. */
module ProcTheorems {
  import opened ProcTable
  import opened ProcMachine

  // ---- exit and wait ----

  /** The parent, if there is one, is alive; every process but init has one. */
  predicate ParentAlive(s: Sys, i: int)
    requires 0 <= i < |s.procs|
  {
    var p := s.procs[i].parent;
    p == -1 || (0 <= p < |s.procs| && s.procs[p].state != UNUSED && s.procs[p].state != ZOMBIE)
  }

  predicate InWait(s: Sys, p: int) { 0 <= p < |s.procs| && SleepsOn(s.procs[p], OfProc(p)) }

  /** An exited process whose parent does not sleep through it. */
  predicate Noticed(s: Sys, i: int)
    requires 0 <= i < |s.procs|
  {
    s.procs[i].state == ZOMBIE ==> !InWait(s, s.procs[i].parent)
  }

  predicate Slot(s: Sys, i: int)
    requires 0 <= i < |s.procs|
  {
    && ParentAlive(s, i) && Noticed(s, i) && s.procs[i].parent != i
    && (s.procs[i].parent == -1 <==> s.procs[i].state == UNUSED || i == s.init)
    && (s.procs[i].state == SLEEPING && s.procs[i].chan.OfProc? ==> s.procs[i].chan.i == i)
  }

  predicate Family(s: Sys) {
    && Runs(s) && (forall i :: 0 <= i < |s.procs| ==> Slot(s, i))
    && s.procs[s.init].state != UNUSED && s.procs[s.init].state != ZOMBIE
  }

  /** The running process changes hands without exiting. */
  lemma FamilySwitch(s: Sys, st: PState, c: Chan)
    requires Family(s) && s.cur >= 0 && (st == RUNNABLE || st == SLEEPING)
    requires st == SLEEPING && c.OfProc? ==>
      c.i == s.cur && forall i :: 0 <= i < |s.procs| && s.procs[i].parent == s.cur ==> s.procs[i].state != ZOMBIE
    ensures Family(SwitchOut(s, st, c))
  {
    var s' := SwitchOut(s, st, c);
    forall i | 0 <= i < |s.procs| ensures Slot(s', i) { assert Slot(s, i); }
  }

  /** Waking sleepers. */
  lemma FamilyWake(s: Sys, c: Chan)
    requires Family(s)
    ensures Family(s.(procs := Wake(s.procs, c)))
  {
    var s' := s.(procs := Wake(s.procs, c));
    forall i | 0 <= i < |s.procs| ensures Slot(s', i) {
      assert Slot(s, i);
      var p := s.procs[i].parent;
      assert 0 <= p < |s.procs| ==> s'.procs[p] == Woken(s.procs[p], c);
    }
  }

  lemma FamilyTick(s: Sys)
    requires Family(s)
    ensures Family(AfterTick(s))
  {
    var s' := AfterTick(s);
    forall i | 0 <= i < |s.procs| ensures Slot(s', i) {
      assert Slot(s, i);
      var p := s.procs[i].parent;
      assert 0 <= p < |s.procs| ==> s'.procs[p] == Notified(s.procs[p]);
    }
  }

  lemma FamilyDispatch(s: Sys)
    requires Family(s) && s.cur < 0
    ensures Family(RunNext(s))
  {
    var s' := RunNext(s);
    forall i | 0 <= i < |s.procs| ensures Slot(s', i) { assert Slot(s, i); }
  }

  lemma FamilySpawn(s: Sys, i: nat, remain: int)
    requires Family(s) && s.cur >= 0 && i < |s.procs| && s.procs[i].state == UNUSED
    ensures Family(Spawn(s, i, remain))
  {
    var s' := Spawn(s, i, remain);
    forall j | 0 <= j < |s.procs| ensures Slot(s', j) { assert Slot(s, j); }
  }

  lemma FamilyAbandon(s: Sys, i: nat)
    requires Family(s) && i < |s.procs| && s.procs[i].state == UNUSED
    ensures Family(Abandon(s, i))
  {
    var s' := Abandon(s, i);
    forall j | 0 <= j < |s.procs| ensures Slot(s', j) { assert Slot(s, j); }
  }

  lemma FamilyReap(s: Sys, z: nat)
    requires Family(s) && s.cur >= 0 && z < |s.procs| && s.procs[z].state == ZOMBIE
    ensures Family(Reap(s, z))
  {
    var s' := Reap(s, z);
    forall j | 0 <= j < |s.procs| ensures Slot(s', j) { assert Slot(s, j); }
  }

  lemma FamilyKill(s: Sys, pid: int)
    requires Family(s)
    ensures Family(AfterKill(s, pid))
  {
    var s' := AfterKill(s, pid);
    forall j | 0 <= j < |s.procs| ensures Slot(s', j) { assert Slot(s, j); }
  }

  lemma FamilyRemain(s: Sys, t: int)
    requires Family(s) && s.cur >= 0
    ensures Family(AfterRemain(s, t))
  {
    if t > 0 {
      var s1 := s.(procs := s.procs[s.cur := s.procs[s.cur].(remain := t)],
        grant := s.grant[s.cur := t + s.charged[s.cur]]);
      forall j | 0 <= j < |s.procs| ensures Slot(s1, j) { assert Slot(s, j); }
      if t > s.procs[s.cur].remain { FamilySwitch(s1, RUNNABLE, s.procs[s.cur].chan); }
    }
  }

  /** After the children were passed on: they are init's, and init is awake if one of them is a zombie. */
  lemma FamilyOrphan(s: Sys)
    requires Family(s) && s.cur >= 0 && s.cur != s.init
    ensures var s' := s.(procs := Orphan(s.procs, s.cur, s.init));
      Family(s') && forall i :: 0 <= i < |s.procs| ==> s'.procs[i].parent != s.cur
  {
    var s' := s.(procs := Orphan(s.procs, s.cur, s.init));
    forall i | 0 <= i < |s.procs| ensures Slot(s', i) && s'.procs[i].parent != s.cur {
      assert Slot(s, i) && Slot(s, s.cur) && Slot(s, s.init);
      OrphanAt(s, i);
      OrphanAt(s, s.init);
      var p := s.procs[i].parent;
      if 0 <= p < |s.procs| { OrphanAt(s, p); }
      if p == s.cur && s.procs[i].state == ZOMBIE { assert HasZombie(s.procs, s.cur, |s.procs|); }
    }
    forall i | 0 <= i < |s.procs| && s'.procs[i].state == RUNNING ensures i == s.cur { OrphanAt(s, i); }
    OrphanAt(s, s.cur);
    OrphanAt(s, s.init);
  }

  lemma OrphanAt(s: Sys, i: int)
    requires Family(s) && 0 <= i < |s.procs|
    ensures var p, q := s.procs[i], Orphan(s.procs, s.cur, s.init)[i];
      && q.parent == (if p.parent == s.cur then s.init else p.parent) && q.chan == p.chan
      && (q.state == p.state || (p.state == SLEEPING && q.state == RUNNABLE))
      && (HasZombie(s.procs, s.cur, |s.procs|) ==> !SleepsOn(q, OfProc(s.init)))
  {
  }

  lemma FamilyExit(s: Sys)
    requires Family(s) && s.cur >= 0 && s.cur != s.init
    ensures Family(AfterExit(s))
  {
    var p := s.procs[s.cur];
    var c := ParentChan(p.parent);
    assert Slot(s, s.cur);
    FamilyWake(s, c);
    var s1 := s.(procs := Wake(s.procs, c));
    FamilyOrphan(s1);
    var s2 := s1.(procs := Orphan(s1.procs, s.cur, s.init));
    OrphanAt(s1, s.cur);
    if p.parent >= 0 {
      OrphanAt(s1, p.parent);
      assert s1.procs[p.parent] == Woken(s.procs[p.parent], c);
    }
    assert !InWait(s2, s2.procs[s.cur].parent);
    var s' := SwitchOut(s2, ZOMBIE, p.chan);
    forall i | 0 <= i < |s.procs| ensures Slot(s', i) { assert Slot(s2, i); }
  }

  lemma FamilyStep(s: Sys, e: Event)
    requires Family(s) && Enabled(s, e)
    ensures Family(Step(s, e))
  {
    match e
    case Tick => FamilyTick(s);
    case Dispatch => FamilyDispatch(s);
    case Yield => FamilySwitch(s, RUNNABLE, s.procs[s.cur].chan);
    case GiveCpu => FamilyGive(s);
    case SleepOn(c) => FamilySwitch(s, SLEEPING, c);
    case Snooze(n) => FamilySnooze(s, n);
    case Wakeup(c) => FamilyWake(s, c);
    case Fork(ok) => FamilyFork(s, ok);
    case Clone(ok) =>
      var i := FreeSlot(s.procs, 0);
      if i < |s.procs| { if ok { FamilySpawn(s, i, INIT_REMAIN); } else { FamilyAbandon(s, i); } }
    case Exit => FamilyExit(s);
    case Wait => FamilyWait(s);
    case Kill(pid) => FamilyKill(s, pid);
    case Remain(t) => FamilyRemain(s, t);
  }

  lemma FamilyGive(s: Sys)
    requires Family(s) && s.cur >= 0
    ensures Family(Step(s, GiveCpu))
  {
    var s1 := s.(procs := s.procs[s.cur := s.procs[s.cur].(skip := true)], target := s.cur);
    forall j | 0 <= j < |s.procs| ensures Slot(s1, j) { assert Slot(s, j); }
    FamilySwitch(s1, RUNNABLE, s.procs[s.cur].chan);
  }

  lemma FamilySnooze(s: Sys, n: int)
    requires Family(s) && s.cur >= 0
    ensures Family(Step(s, Snooze(n)))
  {
    var s1 := s.(procs := s.procs[s.cur := s.procs[s.cur].(sleepticks := n)]);
    forall j | 0 <= j < |s.procs| ensures Slot(s1, j) { assert Slot(s, j); }
    FamilySwitch(s1, SLEEPING, OnTicks);
  }

  lemma FamilyFork(s: Sys, ok: bool)
    requires Family(s) && s.cur >= 0
    ensures Family(Step(s, Fork(ok)))
  {
    var i := FreeSlot(s.procs, 0);
    if i < |s.procs| {
      if ok {
        FamilySpawn(s, i, s.procs[s.cur].remain);
        var s1 := Spawn(s, i, s.procs[s.cur].remain);
        FamilySwitch(s1, RUNNABLE, s1.procs[s.cur].chan);
      } else {
        FamilyAbandon(s, i);
      }
    }
  }

  lemma FamilyWait(s: Sys)
    requires Family(s) && s.cur >= 0
    ensures Family(Step(s, Wait))
  {
    var z := ZombieChild(s.procs, s.cur, 0);
    if z < |s.procs| {
      FamilyReap(s, z);
    } else if HasKids(s.procs, s.cur, |s.procs|) && !s.procs[s.cur].killed {
      FamilySwitch(s, SLEEPING, OfProc(s.cur));
    }
  }
}
