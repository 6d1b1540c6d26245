/** The calls of proc.c and sysproc.c as they change the kernel's variables. */
module ProcKernel {
  import opened ProcTable
  import opened ProcMachine

  class Kernel {
    var procs: seq<Proc>
    var cur: int
    var skipTarget: int
    var ticks: nat
    var nextpid: int
    var init: int
    ghost var ran: seq<int>
    ghost var charged: seq<int>
    ghost var grant: seq<int>
    ghost var reaped: set<int>

    ghost function Value(): Sys
      reads this
    {
      Sys(procs, cur, skipTarget, ticks, nextpid, init, ran, charged, grant, reaped)
    }

    /** stcf_account_before_switch, the new state, and the switch to the scheduler */
    method Leave(st: PState, c: Chan)
      requires Shaped(Value()) && cur >= 0
      modifies this
      ensures Value() == SwitchOut(old(Value()), st, c)
    {
      var p := procs[cur];
      if p.last >= 0 {
        var elapsed := Int32(ticks - p.last % UINT);
        p := p.(remain := Int32(p.remain - elapsed));
      }
      p := p.(state := st, chan := c);
      charged := charged[cur := charged[cur] + (procs[cur].remain - p.remain)];
      procs := procs[cur := p];
      cur := -1;
    }

    /** One round of scheduler() */
    method Schedule()
      requires Shaped(Value()) && cur < 0
      modifies this
      ensures Value() == Step(old(Value()), Dispatch)
    {
      var best := PickNext(procs, skipTarget);
      if best >= 0 {
        if skipTarget >= 0 && best != skipTarget {
          procs := procs[skipTarget := procs[skipTarget].(skip := false)];
          skipTarget := -1;
        }
        cur := best;
        procs := procs[best := procs[best].(state := RUNNING)];
        procs := procs[best := procs[best].(last := Int32(ticks))];
        procs := procs[best := procs[best].(chan := NoChan)];
      }
    }

    method YieldCpu()
      requires Shaped(Value()) && cur >= 0
      modifies this
      ensures Value() == Step(old(Value()), Yield)
    {
      Leave(RUNNABLE, procs[cur].chan);
    }

    method GiveCpuAway()
      requires Shaped(Value()) && cur >= 0
      modifies this
      ensures Value() == Step(old(Value()), GiveCpu)
    {
      procs := procs[cur := procs[cur].(skip := true)];
      skipTarget := cur;
      YieldCpu();
    }

    method SetRemain(t: int) returns (r: int)
      requires Shaped(Value()) && cur >= 0 && t <= INIT_REMAIN
      modifies this
      ensures Value() == Step(old(Value()), Remain(t)) && r == if t <= 0 then -1 else 0
    {
      if t <= 0 { return -1; }
      var before := procs[cur].remain;
      procs := procs[cur := procs[cur].(remain := t)];
      grant := grant[cur := t + charged[cur]];
      if t > before { YieldCpu(); }
      r := 0;
    }

    /** allocproc's scan, -1 when the table is full */
    method FindUnused() returns (i: int)
      ensures i == if FreeSlot(procs, 0) < |procs| then FreeSlot(procs, 0) else -1
    {
      i := 0;
      while i < |procs|
        invariant 0 <= i <= FreeSlot(procs, 0)
      {
        if procs[i].state == UNUSED { return; }
        i := i + 1;
      }
      i := -1;
    }

    /** fork; `ok` says whether there was memory for the child */
    method ForkChild(ok: bool) returns (pid: int)
      requires Shaped(Value()) && cur >= 0 && procs[cur].state == RUNNING
      modifies this
      ensures Value() == Step(old(Value()), Fork(ok))
      ensures pid == if ok && FreeSlot(old(procs), 0) < |old(procs)| then old(nextpid) else -1
    {
      var i := FindUnused();
      if i < 0 { return -1; }
      if !ok {
        procs := procs[i := procs[i].(pid := nextpid, chan := NoChan, sleepticks := -1)];
        nextpid := nextpid + 1;
        return -1;
      }
      pid := nextpid;
      Populate(i, procs[cur].remain);
      YieldCpu();
    }

    method CloneThread(ok: bool) returns (pid: int)
      requires Shaped(Value()) && cur >= 0
      modifies this
      ensures Value() == Step(old(Value()), Clone(ok))
      ensures pid == if ok && FreeSlot(old(procs), 0) < |old(procs)| then old(nextpid) else -1
    {
      var i := FindUnused();
      if i < 0 { return -1; }
      if !ok {
        procs := procs[i := procs[i].(pid := nextpid, chan := NoChan, sleepticks := -1)];
        nextpid := nextpid + 1;
        return -1;
      }
      pid := nextpid;
      Populate(i, INIT_REMAIN);
    }

    /** The fields of a new process. */
    method Populate(i: nat, remain: int)
      requires Shaped(Value()) && cur >= 0 && i < |procs|
      modifies this
      ensures Value() == Spawn(old(Value()), i, remain)
    {
      procs := procs[i := Proc(RUNNABLE, nextpid, cur, NoChan, procs[i].killed, -1, remain, -1, false)];
      nextpid := nextpid + 1;
      ran, charged, grant := ran[i := 0], charged[i := 0], grant[i := remain];
    }

    /** exit; `ok` is false when init exits, which panics */
    method ExitCurrent() returns (ok: bool)
      requires Shaped(Value()) && cur >= 0
      modifies this
      ensures ok == old(cur != init)
      ensures Value() == if old(cur != init) then Step(old(Value()), Exit) else old(Value())
    {
      if cur == init { return false; }
      ok := true;
      var chan := procs[cur].chan;
      procs := Wakeup1(procs, ParentChan(procs[cur].parent));
      procs := PassChildren(procs, cur, init);
      Leave(ZOMBIE, chan);
    }

    /** One turn of wait: the pid of a reaped child, -1 for none to wait for, 0 after sleeping */
    method WaitTurn() returns (pid: int)
      requires Shaped(Value()) && cur >= 0
      modifies this
      ensures Value() == Step(old(Value()), Wait)
      ensures var z := ZombieChild(old(procs), old(cur), 0);
        pid == if z < |old(procs)| then old(procs)[z].pid
               else if !HasKids(old(procs), old(cur), |old(procs)|) || old(procs)[old(cur)].killed then -1 else 0
    {
      var z, kids := ScanChildren(procs, cur);
      if z < |procs| {
        pid := procs[z].pid;
        procs := procs[z := procs[z].(pid := 0, parent := -1, killed := false, state := UNUSED)];
        reaped := reaped + {pid};
        return;
      }
      if !kids || procs[cur].killed { return -1; }
      Leave(SLEEPING, OfProc(cur));
      pid := 0;
    }

    method KillPid(pid: int) returns (r: int)
      requires Shaped(Value()) && cur >= 0
      modifies this
      ensures Value() == Step(old(Value()), Kill(pid))
      ensures r == if FindPid(old(procs), pid, 0) < |old(procs)| then 0 else -1
    {
      var k := 0;
      while k < |procs|
        invariant 0 <= k <= |procs| && FindPid(procs, pid, k) == FindPid(procs, pid, 0) && Value() == old(Value())
      {
        if procs[k].pid == pid {
          var p := procs[k];
          procs := procs[k := p.(killed := true, state := if p.state == SLEEPING then RUNNABLE else p.state)];
          return 0;
        }
        k := k + 1;
      }
      r := -1;
    }

    /** The timer interrupt: ticks and sleep_proc_notify */
    method TimerTick()
      requires Shaped(Value())
      modifies this
      ensures Value() == Step(old(Value()), Tick)
    {
      ghost var before := procs;
      var i := 0;
      while i < |procs|
        invariant 0 <= i <= |procs| == |before| && Value() == old(Value()).(procs := procs)
        invariant forall j :: 0 <= j < i ==> procs[j] == Notified(before[j])
        invariant forall j :: i <= j < |procs| ==> procs[j] == before[j]
      {
        if procs[i].state == SLEEPING && procs[i].chan == OnTicks {
          if procs[i].sleepticks == 0 {
            procs := procs[i := procs[i].(state := RUNNABLE)];
          } else {
            procs := procs[i := procs[i].(sleepticks := procs[i].sleepticks - 1)];
          }
        }
        i := i + 1;
      }
      ticks := ticks + 1;
      if cur >= 0 { ran := ran[cur := ran[cur] + 1]; }
      assert procs == AfterTick(old(Value())).procs;
    }
  }
}
