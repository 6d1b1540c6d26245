/** All interleavings of begin_op, log_write, end_op, the block writes of commit and recovery,
    and crashes, as one state machine. */
module LogMachine {
  import opened Helpers
  import opened LogDisk

  /** Where the committing (or recovering) kernel thread stands. */
  datatype Phase =
    | Running                    // no commit in progress
    | Writing(tail: nat)         // write_log
    | Heading                    // write_head: the commit point
    | Installing(tail: nat)      // install_trans
    | Clearing                   // write_head with n == 0
    | Finishing                  // commit() returned, log.committing still set
    | Booting                    // rebooted, before read_head
    | Replaying(tail: nat)       // install_trans called by recover_from_log
    | Erasing                    // write_head with n == 0, called by recover_from_log

  /** `ops` holds, per active operation, how many new blocks it has added to the log. */
  datatype Sys = Sys(disk: Disk, lh: seq<int>, dirty: map<int, Block>, ops: seq<nat>, committing: bool, phase: Phase)

  datatype Event =
    | Begin                                   // begin_op gets past its sleep loop
    | Write(op: nat, block: int, data: Block) // an operation changes a buffer and calls log_write
    | End(op: nat)                            // end_op
    | Tick                                    // the next step of commit or recovery
    | Crash

  /** The guard of begin_op's loop. */
  predicate MayBegin(s: Sys) {
    !s.committing && |s.lh| + (|s.ops| + 1) * MAXOPBLOCKS <= LOGSIZE
  }

  /** The first panic of log_write; it does not look at whether the block is already logged. */
  predicate TooBig(g: Geometry, s: Sys) {
    |s.lh| >= LOGSIZE || |s.lh| >= g.size - 1
  }

  /** The list after log_write: an already listed block is absorbed. */
  function Absorb(lh: seq<int>, b: int): (lh': seq<int>) {
    if Find(lh, b) < |lh| then lh else lh + [b]
  }

  function AddedBy(lh: seq<int>, b: int): nat {
    if Find(lh, b) < |lh| then 0 else 1
  }

  function Without(ops: seq<nat>, k: nat): seq<nat>
    requires k < |ops|
  {
    ops[..k] + ops[k + 1..]
  }

  function EndOp(s: Sys, k: nat): Sys
    requires k < |s.ops|
  {
    if |s.ops| > 1 then s.(ops := Without(s.ops, k))
    else s.(ops := [], committing := true, phase := if |s.lh| > 0 then Writing(0) else Finishing)
  }

  /** One step of the thread that runs commit or recover_from_log; each writes at most one block. */
  function Advance(g: Geometry, s: Sys): Option<Sys> {
    match s.phase
    case Running => None
    case Writing(t) =>
      if t < |s.lh| then
        var b := s.lh[t];
        var data := if b in s.dirty then s.dirty[b] else Get(s.disk, b);
        Some(s.(disk := CopyToLog(g, s.disk, t, data), phase := Writing(t + 1)))
      else Some(s.(phase := Heading))
    case Heading => Some(s.(disk := WriteHeader(g, s.disk, s.lh), phase := Installing(0)))
    case Installing(t) =>
      if t < |s.lh| then
        Some(s.(disk := InstallOne(g, s.disk, s.lh, t), dirty := s.dirty - {s.lh[t]}, phase := Installing(t + 1)))
      else Some(s.(lh := [], phase := Clearing))
    case Clearing => Some(s.(disk := WriteHeader(g, s.disk, s.lh), phase := Finishing))
    case Finishing => Some(s.(committing := false, phase := Running))
    case Booting => Some(s.(lh := Announced(Get(s.disk, g.start)), phase := Replaying(0)))
    case Replaying(t) =>
      if t < |s.lh| then Some(s.(disk := InstallOne(g, s.disk, s.lh, t), phase := Replaying(t + 1)))
      else Some(s.(lh := [], phase := Erasing))
    case Erasing => Some(s.(disk := WriteHeader(g, s.disk, s.lh), phase := Running))
  }

  /** `None` when the event cannot happen in `s` (a sleeping begin_op, a panicking log_write). */
  function Step(g: Geometry, s: Sys, e: Event): Option<Sys> {
    match e
    case Begin =>
      if s.phase.Running? && MayBegin(s) then Some(s.(ops := s.ops + [0])) else None
    case Write(k, b, data) =>
      if s.phase.Running? && k < |s.ops| && !TooBig(g, s) && IsHome(g, s.disk, b) then
        Some(s.(lh := Absorb(s.lh, b), dirty := s.dirty[b := data],
                ops := s.ops[k := s.ops[k] + AddedBy(s.lh, b)]))
      else None
    case End(k) =>
      if s.phase.Running? && k < |s.ops| then Some(EndOp(s, k)) else None
    case Tick => Advance(g, s)
    case Crash => Some(Sys(s.disk, [], map[], [], false, Booting))
  }

  function Run(g: Geometry, s: Sys, es: seq<Event>): Option<Sys>
    decreases |es|
  {
    if es == [] then Some(s) else
    match Run(g, s, es[..|es| - 1])
    case None => None
    case Some(t) => Step(g, t, es[|es| - 1])
  }

  /** A machine about to boot from a disk whose header is sane. */
  predicate Initial(g: Geometry, s: Sys) {
    ValidDisk(g, s.disk) && s == Sys(s.disk, [], map[], [], false, Booting)
  }

  // ---- The invariant ----

  /** The dirty buffers are exactly the listed blocks from position `from` on. */
  ghost predicate Pinned(lh: seq<int>, dirty: map<int, Block>, from: nat) {
    && (forall i :: from <= i < |lh| ==> lh[i] in dirty)
    && (forall b :: b in dirty ==> from <= Find(lh, b) < |lh|)
  }

  /** Log slots from `from` on still agree with the dirty buffers they were copied from. */
  ghost predicate Backed(g: Geometry, d: Disk, lh: seq<int>, dirty: map<int, Block>, from: nat)
    requires Fits(g, d) && Loggable(g, d, lh)
  {
    forall i :: from <= i < |lh| ==> lh[i] in dirty && d[g.start + 1 + i] == dirty[lh[i]]
  }

  ghost predicate PhaseInv(g: Geometry, s: Sys)
    requires ValidDisk(g, s.disk) && Loggable(g, s.disk, s.lh)
  {
    match s.phase
    case Running => Logged(g, s.disk) == [] && Pinned(s.lh, s.dirty, 0)
    case Writing(t) => Logged(g, s.disk) == [] && Pinned(s.lh, s.dirty, 0) && t <= |s.lh| &&
      Copied(g, s.disk, s.lh, s.dirty, t)
    case Heading => Logged(g, s.disk) == [] && Pinned(s.lh, s.dirty, 0) && Copied(g, s.disk, s.lh, s.dirty, |s.lh|)
    case Installing(t) =>
      && Logged(g, s.disk) == s.lh && t <= |s.lh| && Installed(g, s.disk, s.lh, t)
      && Pinned(s.lh, s.dirty, t) && Backed(g, s.disk, s.lh, s.dirty, t)
    case Clearing =>
      s.lh == [] && s.dirty == map[] && Installed(g, s.disk, Logged(g, s.disk), |Logged(g, s.disk)|)
    case Finishing => Logged(g, s.disk) == [] && s.lh == [] && s.dirty == map[]
    case Booting => s.lh == [] && s.dirty == map[]
    case Replaying(t) =>
      Logged(g, s.disk) == s.lh && t <= |s.lh| && Installed(g, s.disk, s.lh, t) && s.dirty == map[]
    case Erasing =>
      s.lh == [] && s.dirty == map[] && Installed(g, s.disk, Logged(g, s.disk), |Logged(g, s.disk)|)
  }

  predicate Recovering(s: Sys) {
    s.phase.Booting? || s.phase.Replaying? || s.phase.Erasing?
  }

  ghost predicate Inv(g: Geometry, s: Sys) {
    && ValidDisk(g, s.disk)
    && Loggable(g, s.disk, s.lh)
    && (!s.phase.Running? ==> s.ops == [])
    && (s.committing <==> !s.phase.Running? && !Recovering(s))
    && PhaseInv(g, s)
  }

  /** The machines about to boot are exactly those that the invariant admits. */
  lemma InitialIff(g: Geometry, s: Sys)
    ensures Initial(g, s) <==> Inv(g, s) && s.phase.Booting?
  {
  }

  // ---- The atomic disk that the machine implements ----

  /** What survives a crash, and what running operations see. */
  datatype Atomic = Atomic(durable: Disk, current: Disk)

  ghost function Abstract(g: Geometry, s: Sys): Atomic
    requires ValidDisk(g, s.disk)
  {
    Atomic(Logical(g, s.disk), if Recovering(s) then Logical(g, s.disk) else View(g, s.disk, s.dirty))
  }

  /** A write changes one block of `current`; only the header write of a commit makes it durable. */
  ghost predicate AtomicStep(g: Geometry, s: Sys, e: Event, a: Atomic, a': Atomic) {
    match e
    case Write(_, b, data) =>
      0 <= b < |a.current| && a' == a.(current := a.current[b := data])
    case Crash => a' == a.(current := a.durable)
    case Tick => a' == if s.phase.Heading? then a.(durable := a.current) else a
    case _ => a' == a
  }

  lemma FindAbsorbed(lh: seq<int>, b: int, c: int)
    ensures Find(Absorb(lh, b), c) < |Absorb(lh, b)| <==> Find(lh, c) < |lh| || c == b
  {
    var lh' := Absorb(lh, b);
    if Find(lh, c) < |lh| { assert lh'[Find(lh, c)] == c; }
    if c == b && Find(lh, b) == |lh| { assert lh'[|lh|] == b; }
  }

  lemma WriteStep(g: Geometry, s: Sys, e: Event)
    requires Inv(g, s) && e.Write? && Step(g, s, e).Some?
    ensures Inv(g, Step(g, s, e).value)
    ensures AtomicStep(g, s, e, Abstract(g, s), Abstract(g, Step(g, s, e).value))
  {
    var s' := Step(g, s, e).value;
    assert Loggable(g, s'.disk, s'.lh);
    forall b | b in s'.dirty ensures 0 <= Find(s'.lh, b) < |s'.lh| { FindAbsorbed(s.lh, e.block, b); }
    assert Pinned(s'.lh, s'.dirty, 0);
    assert View(g, s'.disk, s'.dirty) == View(g, s.disk, s.dirty)[e.block := e.data];
  }

  lemma CopyExtends(g: Geometry, d: Disk, lh: seq<int>, dirty: map<int, Block>, t: nat)
    requires Fits(g, d) && Loggable(g, d, lh) && t < |lh| && lh[t] in dirty && Copied(g, d, lh, dirty, t)
    ensures var d' := CopyToLog(g, d, t, dirty[lh[t]]);
      Fits(g, d') && Loggable(g, d', lh) && Copied(g, d', lh, dirty, t + 1)
  {
  }

  lemma WritingStep(g: Geometry, s: Sys)
    requires Inv(g, s) && s.phase.Writing?
    ensures Inv(g, Advance(g, s).value)
    ensures AtomicStep(g, s, Tick, Abstract(g, s), Abstract(g, Advance(g, s).value))
  {
    var s' := Advance(g, s).value;
    var t := s.phase.tail;
    if t < |s.lh| {
      CopyKeepsLogical(g, s.disk, t, s.dirty[s.lh[t]]);
      CopyExtends(g, s.disk, s.lh, s.dirty, t);
      ViewCongruence(g, s.disk, s.dirty, s'.disk, s'.dirty);
    }
  }

  lemma HeadingStep(g: Geometry, s: Sys)
    requires Inv(g, s) && s.phase.Heading?
    ensures Inv(g, Advance(g, s).value)
    ensures AtomicStep(g, s, Tick, Abstract(g, s), Abstract(g, Advance(g, s).value))
  {
    var s' := Advance(g, s).value;
    HeaderCommits(g, s.disk, s.lh, s.dirty);
    ViewCongruence(g, s.disk, s.dirty, s'.disk, s'.dirty);
  }

  /** commit erases the header of a transaction that is home. */
  lemma EraseStep(g: Geometry, s: Sys)
    requires Inv(g, s) && s.phase.Clearing?
    ensures Inv(g, Advance(g, s).value)
    ensures Abstract(g, Advance(g, s).value) == Abstract(g, s)
  {
    EraseKeepsLogical(g, s.disk);
    EraseKeepsView(g, s.disk);
  }

  lemma EraseKeepsView(g: Geometry, d: Disk)
    requires ValidDisk(g, d)
    ensures View(g, WriteHeader(g, d, []), map[]) == View(g, d, map[])
  {
    ViewCongruence(g, d, map[], WriteHeader(g, d, []), map[]);
  }

  lemma ClearingStep(g: Geometry, s: Sys)
    requires Inv(g, s) && (s.phase.Clearing? || s.phase.Finishing?)
    ensures Inv(g, Advance(g, s).value)
    ensures AtomicStep(g, s, Tick, Abstract(g, s), Abstract(g, Advance(g, s).value))
  {
    if s.phase.Clearing? { EraseStep(g, s); }
  }

  lemma UnpinOne(lh: seq<int>, dirty: map<int, Block>, t: nat)
    requires Distinct(lh) && t < |lh| && Pinned(lh, dirty, t)
    ensures Pinned(lh, dirty - {lh[t]}, t + 1)
  {
  }

  lemma InstallKeepsBacked(g: Geometry, d: Disk, dirty: map<int, Block>, t: nat)
    requires ValidDisk(g, d) && t < |Logged(g, d)| && Backed(g, d, Logged(g, d), dirty, t)
    ensures var lh := Logged(g, d); var d' := InstallOne(g, d, lh, t);
      && Fits(g, d') && Loggable(g, d', lh) && Backed(g, d', lh, dirty - {lh[t]}, t + 1)
  {
  }

  lemma InstallKeepsView(g: Geometry, d: Disk, dirty: map<int, Block>, t: nat)
    requires ValidDisk(g, d) && t < |Logged(g, d)| && Backed(g, d, Logged(g, d), dirty, t)
    ensures var lh := Logged(g, d);
      View(g, InstallOne(g, d, lh, t), dirty - {lh[t]}) == View(g, d, dirty)
  {
    var lh := Logged(g, d);
    assert IsHome(g, d, lh[t]) && lh[t] in dirty;
    ViewCongruence(g, d, dirty, InstallOne(g, d, lh, t), dirty - {lh[t]});
  }

  /** install_trans writes one block home. */
  lemma InstallOneStep(g: Geometry, s: Sys)
    requires Inv(g, s) && s.phase.Installing? && s.phase.tail < |s.lh|
    ensures Inv(g, Advance(g, s).value)
    ensures Abstract(g, Advance(g, s).value) == Abstract(g, s)
  {
    var t := s.phase.tail;
    InstallKeepsLogical(g, s.disk, t);
    InstallKeepsBacked(g, s.disk, s.dirty, t);
    InstallKeepsView(g, s.disk, s.dirty, t);
    UnpinOne(s.lh, s.dirty, t);
  }

  lemma NothingPinned(lh: seq<int>, dirty: map<int, Block>)
    requires Pinned(lh, dirty, |lh|)
    ensures dirty == map[]
  {
    assert forall b :: b !in dirty;
  }

  lemma InstallStep(g: Geometry, s: Sys)
    requires Inv(g, s) && s.phase.Installing?
    ensures Inv(g, Advance(g, s).value)
    ensures AtomicStep(g, s, Tick, Abstract(g, s), Abstract(g, Advance(g, s).value))
  {
    if s.phase.tail < |s.lh| { InstallOneStep(g, s); } else { NothingPinned(s.lh, s.dirty); }
  }

  lemma RecoveryStep(g: Geometry, s: Sys)
    requires Inv(g, s) && Recovering(s)
    ensures Inv(g, Advance(g, s).value)
    ensures AtomicStep(g, s, Tick, Abstract(g, s), Abstract(g, Advance(g, s).value))
    ensures Advance(g, s).value.phase.Running? ==> Home(g, Advance(g, s).value.disk) == Logical(g, s.disk)
  {
    var s' := Advance(g, s).value;
    match s.phase
    case Booting =>
    case Replaying(t) =>
      if t < |s.lh| { InstallKeepsLogical(g, s.disk, t); }
    case Erasing =>
      EraseKeepsLogical(g, s.disk);
      assert View(g, s'.disk, s'.dirty) == Home(g, s'.disk);
  }

  /** Every step keeps the invariant and is a step of the atomic disk. */
  lemma StepRefines(g: Geometry, s: Sys, e: Event)
    requires Inv(g, s) && Step(g, s, e).Some?
    ensures Inv(g, Step(g, s, e).value)
    ensures AtomicStep(g, s, e, Abstract(g, s), Abstract(g, Step(g, s, e).value))
  {
    match e
    case Write(_, _, _) => WriteStep(g, s, e);
    case Tick =>
      if Recovering(s) { RecoveryStep(g, s); }
      else if s.phase.Installing? { InstallStep(g, s); }
      else if s.phase.Writing? { WritingStep(g, s); }
      else if s.phase.Heading? { HeadingStep(g, s); }
      else { ClearingStep(g, s); }
    case Begin =>
    case End(k) =>
      if s.lh == [] { assert s.dirty == map[] by { assert forall b :: b !in s.dirty; } }
    case Crash =>
  }

  lemma {:induction false} RunInv(g: Geometry, s: Sys, es: seq<Event>)
    requires Inv(g, s) && Run(g, s, es).Some?
    ensures Inv(g, Run(g, s, es).value)
    decreases |es|
  {
    if es != [] {
      RunInv(g, s, es[..|es| - 1]);
      StepRefines(g, Run(g, s, es[..|es| - 1]).value, es[|es| - 1]);
    }
  }
}
