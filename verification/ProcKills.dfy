/** kill looks at pids alone and allocproc never clears `killed`: which processes start out killed. */
module ProcKills {
  import opened ProcTable
  import opened ProcMachine
  import opened ProcRuns

  predicate Unused(s: Sys, i: int) { 0 <= i < |s.procs| && s.procs[i].state == UNUSED }

  /** The event is a kill that finds slot `i`, and nothing is in that slot: its pid is 0, or was left there by a fork
      that ran out of memory. */
  predicate HitsUnused(s: Sys, e: Event, i: int) {
    e.Kill? && Unused(s, i) && FindPid(s.procs, e.pid, 0) == i
  }

  /** What a step does to the flag of a slot that is unused after it. */
  lemma UnusedStep(s: Sys, e: Event, i: int)
    requires Runs(s) && Enabled(s, e) && Unused(Step(s, e), i)
    ensures Unused(s, i) ==> (Step(s, e).procs[i].killed <==> s.procs[i].killed || HitsUnused(s, e, i))
    ensures !Unused(s, i) ==> !Step(s, e).procs[i].killed
  {
    if !e.Kill? { UnusedOther(s, e, i); }
  }

  lemma UnusedOther(s: Sys, e: Event, i: int)
    requires Runs(s) && Enabled(s, e) && Unused(Step(s, e), i) && !e.Kill?
    ensures Step(s, e).procs[i].killed <==> Unused(s, i) && s.procs[i].killed
  {
  }

  /** A kill before step `j + 1` found slot `i` unused, and the slot stayed unused until state `k`. */
  predicate HitAt(states: seq<Sys>, events: seq<Event>, j: nat, k: nat, i: int)
    requires j < k < |states| && |states| == |events| + 1
  {
    HitsUnused(states[j], events[j], i) && forall m :: j <= m <= k ==> Unused(states[m], i)
  }

  predicate HitSince(states: seq<Sys>, events: seq<Event>, k: nat, i: int)
    requires k < |states| && |states| == |events| + 1
  {
    exists j :: 0 <= j < k && HitAt(states, events, j, k, i)
  }

  lemma HitStep(states: seq<Sys>, events: seq<Event>, k: nat, i: int)
    requires |states| == |events| + 1 && 0 < k < |states| && Unused(states[k], i)
    ensures HitSince(states, events, k, i) <==>
      Unused(states[k - 1], i) && (HitSince(states, events, k - 1, i) || HitsUnused(states[k - 1], events[k - 1], i))
  {
    if HitSince(states, events, k, i) {
      var j :| 0 <= j < k && HitAt(states, events, j, k, i);
      assert Unused(states[k - 1], i);
      assert j < k - 1 ==> HitAt(states, events, j, k - 1, i);
    }
    if Unused(states[k - 1], i) && HitSince(states, events, k - 1, i) {
      var j :| 0 <= j < k - 1 && HitAt(states, events, j, k - 1, i);
      assert HitAt(states, events, j, k, i);
    }
    if HitsUnused(states[k - 1], events[k - 1], i) { assert HitAt(states, events, k - 1, k, i); }
  }

  /** In every run an unused slot is marked as killed exactly if a kill has hit it since it became unused. */
  lemma {:induction false} UnusedKilled(states: seq<Sys>, events: seq<Event>, k: nat, i: int)
    requires IsRun(states, events) && Initial(states[0]) && k <= |events| && Unused(states[k], i)
    ensures states[k].procs[i].killed <==> HitSince(states, events, k, i)
  {
    if k > 0 {
      RunInv(states, events, k - 1);
      assert Leads(states[k - 1], events[k - 1], states[k]);
      UnusedStep(states[k - 1], events[k - 1], i);
      HitStep(states, events, k, i);
      if Unused(states[k - 1], i) { UnusedKilled(states, events, k - 1, i); }
    }
  }

  /** So a new process starts out killed exactly if a kill has hit its slot while nothing was in it. */
  lemma StartsKilled(states: seq<Sys>, events: seq<Event>, k: nat)
    requires IsRun(states, events) && Initial(states[0]) && k < |events| && events[k] in {Fork(true), Clone(true)}
    requires FreeSlot(states[k].procs, 0) < |states[k].procs|
    ensures var i := FreeSlot(states[k].procs, 0);
      && i < |states[k + 1].procs| && states[k + 1].procs[i].state == RUNNABLE
      && (states[k + 1].procs[i].killed <==> HitSince(states, events, k, i))
  {
    RunInv(states, events, k);
    assert Leads(states[k], events[k], states[k + 1]);
    UnusedKilled(states, events, k, FreeSlot(states[k].procs, 0));
  }

  /** After boot the unused slots are those with pid 0. */
  predicate Blank(s: Sys) {
    Shaped(s) && s.cur >= 0 && forall i :: 0 <= i < |s.procs| ==> (s.procs[i].state == UNUSED <==> s.procs[i].pid == 0)
  }

  lemma {:induction false} SameScan(procs: seq<Proc>, k: nat)
    requires k <= |procs| && forall i :: 0 <= i < |procs| ==> (procs[i].state == UNUSED <==> procs[i].pid == 0)
    ensures FindPid(procs, 0, k) == FreeSlot(procs, k)
    decreases |procs| - k
  {
    if k < |procs| { SameScan(procs, k + 1); }
  }

  lemma BootBlank(s: Sys)
    requires Initial(s) && |s.procs| >= 2
    ensures Blank(Step(s, Dispatch)) && FreeSlot(Step(s, Dispatch).procs, 0) < |s.procs|
  {
    InitialInv(s);
    BootDispatch(s);
    var s1, other := Step(s, Dispatch), if s.init == 0 then 1 else 0;
    assert s1.procs[other].state == UNUSED;
    assert forall i :: 0 <= i < |s.procs| ==> s1.procs[i].pid == s.procs[i].pid;
  }

  lemma KillThenFork(s: Sys)
    requires Blank(s) && FreeSlot(s.procs, 0) < |s.procs|
    ensures var s' := Step(s, Kill(0)); var i := FreeSlot(s'.procs, 0);
      Blank(s') && i < |s.procs| && i < |Step(s', Fork(true)).procs| && Step(s', Fork(true)).procs[i].killed
  {
    var i, s' := FreeSlot(s.procs, 0), Step(s, Kill(0));
    SameScan(s.procs, 0);
    assert s'.procs[i].state == UNUSED && s'.procs[i].killed;
    assert FreeSlot(s'.procs, 0) == i;
  }

  /** kill(0) before a fork, from boot: the child is killed before it runs. */
  lemma KillZero(s: Sys) returns (states: seq<Sys>, events: seq<Event>)
    requires Initial(s) && |s.procs| >= 2
    ensures IsRun(states, events) && states[0] == s && events == [Dispatch, Kill(0), Fork(true)]
    ensures var i := FreeSlot(states[2].procs, 0); i < |states[3].procs| && states[3].procs[i].killed
  {
    BootBlank(s);
    var s1 := Step(s, Dispatch);
    KillThenFork(s1);
    var s2 := Step(s1, Kill(0));
    var s3 := Step(s2, Fork(true));
    states, events := [s, s1, s2, s3], [Dispatch, Kill(0), Fork(true)];
    assert Leads(s, Dispatch, s1) && Leads(s1, Kill(0), s2) && Leads(s2, Fork(true), s3);
  }
}
