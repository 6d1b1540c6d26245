/** Runs of processes on one CPU.  A step is what happens between two points where the CPU can change hands, or a
    timer tick; the kernel is not preempted and there is no preemption on ticks. */
module ProcMachine {
  import opened ProcTable

  /** The table, the process on the CPU (-1: the scheduler), skip_target (-1: none), the tick count, the next pid and
      init's slot; for each slot the ticks it ran, the ticks it was charged and the budget they are charged to; and
      the pids that wait has returned. */
  datatype Sys = Sys(procs: seq<Proc>, cur: int, target: int, ticks: nat, nextpid: int, init: int,
                     ran: seq<int>, charged: seq<int>, grant: seq<int>, reaped: set<int>)

  datatype Event = Tick | Dispatch | Yield | GiveCpu | SleepOn(c: Chan) | Snooze(n: int) | Wakeup(c: Chan)
    | Fork(ok: bool) | Clone(ok: bool) | Exit | Wait | Kill(pid: int) | Remain(t: int)

  predicate Shaped(s: Sys) {
    && |s.ran| == |s.procs| && |s.charged| == |s.procs| && |s.grant| == |s.procs|
    && -1 <= s.cur < |s.procs| && -1 <= s.target < |s.procs| && 0 <= s.init < |s.procs|
  }

  // ---- Steps ----

  /** Charge the running process, set its state and enter the scheduler. */
  function SwitchOut(s: Sys, st: PState, c: Chan): Sys
    requires Shaped(s) && s.cur >= 0
  {
    var p := s.procs[s.cur];
    var p' := Charge(p, s.ticks).(state := st, chan := c);
    s.(procs := s.procs[s.cur := p'], cur := -1,
      charged := s.charged[s.cur := s.charged[s.cur] + (p.remain - p'.remain)])
  }

  /** One round of the scheduler's loop. */
  function RunNext(s: Sys): Sys
    requires Shaped(s)
  {
    var b := Pick(s.procs, s.target);
    if b < 0 then s else
      var spent := s.target >= 0 && b != s.target;
      var procs := if spent then s.procs[s.target := s.procs[s.target].(skip := false)] else s.procs;
      s.(procs := procs[b := procs[b].(state := RUNNING, chan := NoChan, last := Int32(s.ticks))], cur := b,
         target := if spent then -1 else s.target)
  }

  function Notified(p: Proc): Proc {
    if !SleepsOn(p, OnTicks) then p
    else if p.sleepticks == 0 then p.(state := RUNNABLE)
    else p.(sleepticks := p.sleepticks - 1)
  }

  /** The timer interrupt. */
  function AfterTick(s: Sys): (s': Sys)
    requires Shaped(s)
    ensures |s'.procs| == |s.procs| && forall i :: 0 <= i < |s.procs| ==> s'.procs[i] == Notified(s.procs[i])
  {
    s.(ticks := s.ticks + 1,
       procs := seq(|s.procs|, i requires 0 <= i < |s.procs| => Notified(s.procs[i])),
       ran := if s.cur >= 0 then s.ran[s.cur := s.ran[s.cur] + 1] else s.ran)
  }

  /** allocproc and the rest of fork or clone up to making the child runnable. */
  function Spawn(s: Sys, i: nat, remain: int): Sys
    requires Shaped(s) && s.cur >= 0 && i < |s.procs|
  {
    s.(procs := s.procs[i := Proc(RUNNABLE, s.nextpid, s.cur, NoChan, s.procs[i].killed, -1, remain, -1, false)],
       nextpid := s.nextpid + 1,
       ran := s.ran[i := 0], charged := s.charged[i := 0], grant := s.grant[i := remain])
  }

  /** A slot that was taken and given back because memory ran out; its pid stays behind. */
  function Abandon(s: Sys, i: nat): Sys
    requires Shaped(s) && i < |s.procs|
  {
    s.(procs := s.procs[i := s.procs[i].(pid := s.nextpid, chan := NoChan, sleepticks := -1)], nextpid := s.nextpid + 1)
  }

  function ParentChan(parent: int): Chan { if parent < 0 then NoChan else OfProc(parent) }

  function AfterExit(s: Sys): Sys
    requires Shaped(s) && s.cur >= 0
  {
    var p := s.procs[s.cur];
    SwitchOut(s.(procs := Orphan(Wake(s.procs, ParentChan(p.parent)), s.cur, s.init)), ZOMBIE, p.chan)
  }

  function Reap(s: Sys, z: nat): Sys
    requires Shaped(s) && z < |s.procs|
  {
    s.(procs := s.procs[z := s.procs[z].(pid := 0, parent := -1, killed := false, state := UNUSED)],
       reaped := s.reaped + {s.procs[z].pid})
  }

  /** One turn of wait's loop. */
  function AfterWait(s: Sys): Sys
    requires Shaped(s) && s.cur >= 0
  {
    var z := ZombieChild(s.procs, s.cur, 0);
    if z < |s.procs| then Reap(s, z)
    else if !HasKids(s.procs, s.cur, |s.procs|) || s.procs[s.cur].killed then s
    else SwitchOut(s, SLEEPING, OfProc(s.cur))
  }

  function FindPid(procs: seq<Proc>, pid: int, k: nat): (r: nat)
    requires k <= |procs|
    ensures k <= r <= |procs|
    decreases |procs| - k
  {
    if k == |procs| || procs[k].pid == pid then k else FindPid(procs, pid, k + 1)
  }

  function AfterKill(s: Sys, pid: int): Sys
    requires Shaped(s)
  {
    var k := FindPid(s.procs, pid, 0);
    if k == |s.procs| then s else
      var p := s.procs[k];
      s.(procs := s.procs[k := p.(killed := true, state := if p.state == SLEEPING then RUNNABLE else p.state)])
  }

  /** The time part of remain and exec2. */
  function AfterRemain(s: Sys, t: int): Sys
    requires Shaped(s) && s.cur >= 0
  {
    var p := s.procs[s.cur];
    if t <= 0 then s else
      var s1 := s.(procs := s.procs[s.cur := p.(remain := t)], grant := s.grant[s.cur := t + s.charged[s.cur]]);
      if t > p.remain then SwitchOut(s1, RUNNABLE, p.chan) else s1
  }

  /** Who can take the step: the scheduler, the running process, or an interrupt. */
  predicate Enabled(s: Sys, e: Event) {
    match e
    case Tick => true
    case Wakeup(_) => true
    case Dispatch => s.cur < 0
    case SleepOn(c) => s.cur >= 0 && c != NoChan && !c.OfProc?
    case Exit => s.cur >= 0 && s.cur != s.init
    case Remain(t) => s.cur >= 0 && t <= INIT_REMAIN
    case _ => s.cur >= 0
  }

  function Step(s: Sys, e: Event): Sys
    requires Shaped(s) && Enabled(s, e)
  {
    match e
    case Tick => AfterTick(s)
    case Dispatch => RunNext(s)
    case Yield => SwitchOut(s, RUNNABLE, s.procs[s.cur].chan)
    case GiveCpu =>
      SwitchOut(s.(procs := s.procs[s.cur := s.procs[s.cur].(skip := true)], target := s.cur), RUNNABLE,
        s.procs[s.cur].chan)
    case SleepOn(c) => SwitchOut(s, SLEEPING, c)
    case Snooze(n) =>
      SwitchOut(s.(procs := s.procs[s.cur := s.procs[s.cur].(sleepticks := n)]), SLEEPING, OnTicks)
    case Wakeup(c) => s.(procs := Wake(s.procs, c))
    case Fork(ok) =>
      var i := FreeSlot(s.procs, 0);
      if i == |s.procs| then s
      else if !ok then Abandon(s, i)
      else
        var s1 := Spawn(s, i, s.procs[s.cur].remain);
        SwitchOut(s1, RUNNABLE, s1.procs[s.cur].chan)
    case Clone(ok) =>
      var i := FreeSlot(s.procs, 0);
      if i == |s.procs| then s else if !ok then Abandon(s, i) else Spawn(s, i, INIT_REMAIN)
    case Exit => AfterExit(s)
    case Wait => AfterWait(s)
    case Kill(pid) => AfterKill(s, pid)
    case Remain(t) => AfterRemain(s, t)
  }

  predicate Initial(s: Sys) {
    && Shaped(s) && s.cur == -1 && s.target == -1 && s.ticks == 0 && s.reaped == {}
    && s.procs[s.init] == Proc(RUNNABLE, 1, -1, NoChan, false, -1, INIT_REMAIN, -1, false) && s.nextpid == 2
    && (forall i :: 0 <= i < |s.procs| && i != s.init ==>
        s.procs[i] == Proc(UNUSED, 0, -1, NoChan, false, 0, 0, 0, false))
    && (forall i :: 0 <= i < |s.procs| ==> s.ran[i] == 0 && s.charged[i] == 0 && s.grant[i] == s.procs[i].remain)
  }

  // ---- Who runs ----

  /** Only the process on the CPU is RUNNING. */
  predicate Runs(s: Sys) {
    && Shaped(s) && (s.cur >= 0 ==> s.procs[s.cur].state == RUNNING)
    && forall i :: 0 <= i < |s.procs| && s.procs[i].state == RUNNING ==> i == s.cur
  }
}
