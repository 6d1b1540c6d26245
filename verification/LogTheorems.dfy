/** What every run of the log machine guarantees: crash atomicity, durable transactions,
    group commit, and the exact reach of the "too big a transaction" panic. */
module LogTheorems {
  import opened Helpers
  import opened LogDisk
  import opened LogMachine

  /** Commit and recovery run alone, and power fails any number of times. */
  predicate OnlyTicksAndCrashes(es: seq<Event>) {
    forall i :: 0 <= i < |es| ==> es[i].Tick? || es[i].Crash?
  }

  lemma RunPrefix(g: Geometry, s: Sys, es: seq<Event>)
    requires es != [] && Run(g, s, es).Some?
    ensures Run(g, s, es[..|es| - 1]).Some?
    ensures Run(g, s, es) == Step(g, Run(g, s, es[..|es| - 1]).value, es[|es| - 1])
  {
  }

  lemma RunExtend(g: Geometry, s: Sys, es: seq<Event>, e: Event)
    requires Run(g, s, es).Some?
    ensures Run(g, s, es + [e]) == Step(g, Run(g, s, es).value, e)
    ensures DisciplinedRun(g, s, es + [e]) <==> DisciplinedRun(g, s, es) && Disciplined(Run(g, s, es).value, e)
  {
    assert (es + [e])[..|es|] == es;
  }

  /** Whether the run performs the header write of a commit. */
  function Commits(g: Geometry, s: Sys, es: seq<Event>): bool
    requires Run(g, s, es).Some?
    decreases |es|
  {
    if es == [] then false else
      RunPrefix(g, s, es);
      var t := Run(g, s, es[..|es| - 1]).value;
      Commits(g, s, es[..|es| - 1]) || (es[|es| - 1].Tick? && t.phase.Heading?)
  }

  predicate BeforeHeader(s: Sys) {
    s.phase.Writing? || s.phase.Heading?
  }

  /** A state on the way from `before` to `after`: it will recover to `after` once the header is written. */
  ghost predicate Between(g: Geometry, before: Disk, after: Disk, t: Sys, committed: bool) {
    && Inv(g, t)
    && Logical(g, t.disk) == (if committed then after else before)
    && (BeforeHeader(t) ==> !committed && View(g, t.disk, t.dirty) == after)
  }

  lemma BetweenStep(g: Geometry, before: Disk, after: Disk, t: Sys, committed: bool, e: Event)
    requires Between(g, before, after, t, committed) && (e.Tick? || e.Crash?) && Step(g, t, e).Some?
    ensures Between(g, before, after, Step(g, t, e).value, committed || (e.Tick? && t.phase.Heading?))
  {
    var t' := Step(g, t, e).value;
    StepRefines(g, t, e);
    assert Abstract(g, t).durable == Logical(g, t.disk);
    assert Abstract(g, t').durable == Logical(g, t'.disk);
    if BeforeHeader(t) { assert Abstract(g, t).current == after; }
    if BeforeHeader(t') {
      assert BeforeHeader(t) && e.Tick?;
      assert Abstract(g, t').current == View(g, t'.disk, t'.dirty);
    }
  }

  lemma {:induction false} BetweenRun(g: Geometry, s: Sys, es: seq<Event>)
    requires Inv(g, s) && s.phase == Writing(0)
    requires OnlyTicksAndCrashes(es) && Run(g, s, es).Some?
    ensures Between(g, Home(g, s.disk), View(g, s.disk, s.dirty), Run(g, s, es).value, Commits(g, s, es))
    decreases |es|
  {
    if es == [] {
      ErasedIsHome(g, s.disk);
    } else {
      var init, e := es[..|es| - 1], es[|es| - 1];
      RunPrefix(g, s, es);
      BetweenRun(g, s, init);
      BetweenStep(g, Home(g, s.disk), View(g, s.disk, s.dirty), Run(g, s, init).value, Commits(g, s, init), e);
    }
  }

  /** Crash atomicity: whatever the crashes during commit and during the recoveries that follow,
      the surviving disk is the old one or the whole transaction, and the header write decides. */
  lemma CrashAtomicity(g: Geometry, s: Sys, es: seq<Event>)
    requires Inv(g, s) && s.phase == Writing(0)
    requires OnlyTicksAndCrashes(es) && Run(g, s, es).Some?
    ensures var t := Run(g, s, es).value;
      && ValidDisk(g, t.disk)
      && Logical(g, t.disk) == (if Commits(g, s, es) then View(g, s.disk, s.dirty) else Home(g, s.disk))
      && (t.phase.Running? ==> Home(g, t.disk) == Logical(g, t.disk))
  {
    BetweenRun(g, s, es);
    var t := Run(g, s, es).value;
    if t.phase.Running? { ErasedIsHome(g, t.disk); }
  }

  /** Recovery is idempotent: interrupted and restarted at will, it never changes what it will deliver. */
  lemma {:induction false} RecoveryIdempotent(g: Geometry, s: Sys, es: seq<Event>)
    requires Inv(g, s) && Recovering(s)
    requires OnlyTicksAndCrashes(es) && Run(g, s, es).Some?
    ensures var t := Run(g, s, es).value;
      && Inv(g, t) && (Recovering(t) || t.phase.Running?)
      && Logical(g, t.disk) == Logical(g, s.disk)
      && (t.phase.Running? ==> Home(g, t.disk) == Logical(g, s.disk))
    decreases |es|
  {
    if es != [] {
      var init, e := es[..|es| - 1], es[|es| - 1];
      RunPrefix(g, s, es);
      RecoveryIdempotent(g, s, init);
      StepRefines(g, Run(g, s, init).value, e);
      var t := Run(g, s, es).value;
      if t.phase.Running? { ErasedIsHome(g, t.disk); }
    }
  }

  /** A recovering state that will deliver `h`. */
  ghost predicate Delivering(g: Geometry, h: Disk, t: Sys) {
    Inv(g, t) && Recovering(t) && Logical(g, t.disk) == h
  }

  /** Steps left until recover_from_log returns. */
  function StepsLeft(g: Geometry, t: Sys): int {
    match t.phase
    case Booting => |Announced(Get(t.disk, g.start))| + 3
    case Replaying(k) => |t.lh| - k + 2
    case _ => 1
  }

  lemma RecoveryTick(g: Geometry, h: Disk, t: Sys) returns (t': Sys)
    requires Delivering(g, h, t)
    ensures Advance(g, t) == Some(t') && StepsLeft(g, t) >= 1
    ensures t.phase.Erasing? ==> t'.phase.Running? && Home(g, t'.disk) == h
    ensures !t.phase.Erasing? ==> Delivering(g, h, t') && StepsLeft(g, t') == StepsLeft(g, t) - 1
  {
    t' := Advance(g, t).value;
    RecoveryStep(g, t);
    assert Abstract(g, t).durable == Logical(g, t.disk);
    assert Abstract(g, t').durable == Logical(g, t'.disk);
  }

  /** An undisturbed recovery finishes, after three steps more than there are logged blocks. */
  lemma {:induction false} RecoveryTerminates(g: Geometry, h: Disk, t: Sys) returns (trace: seq<Sys>)
    requires Delivering(g, h, t)
    ensures Finishes(g, h, t, StepsLeft(g, t), trace)
    decreases StepsLeft(g, t)
  {
    var t' := RecoveryTick(g, h, t);
    if t.phase.Erasing? {
      trace := [t, t'];
      FinishesNow(g, h, t, t');
    } else {
      var rest := RecoveryTerminates(g, h, t');
      trace := [t] + rest;
      FinishesThen(g, h, t, t', StepsLeft(g, t'), rest);
    }
  }

  /** `trace` leads in `n` steps from `t` to a running system whose home blocks are `h`. */
  predicate Finishes(g: Geometry, h: Disk, t: Sys, n: int, trace: seq<Sys>) {
    && n >= 0 && |trace| == n + 1 && trace[0] == t
    && (forall i :: 0 <= i < n ==> AdvancesAt(g, trace, i))
    && trace[n].phase.Running? && Home(g, trace[n].disk) == h
  }

  lemma FinishesNow(g: Geometry, h: Disk, t: Sys, t': Sys)
    requires Advance(g, t) == Some(t') && t'.phase.Running? && Home(g, t'.disk) == h
    ensures Finishes(g, h, t, 1, [t, t'])
  {
    assert AdvancesAt(g, [t, t'], 0);
  }

  lemma FinishesThen(g: Geometry, h: Disk, t: Sys, t': Sys, n: int, rest: seq<Sys>)
    requires Finishes(g, h, t', n, rest) && Advance(g, t) == Some(t')
    ensures Finishes(g, h, t, n + 1, [t] + rest)
  {
    AdvancesFirst(g, t, rest);
  }

  predicate AdvancesAt(g: Geometry, trace: seq<Sys>, i: nat)
    requires i + 1 < |trace|
  {
    Advance(g, trace[i]) == Some(trace[i + 1])
  }

  lemma AdvancesFirst(g: Geometry, t: Sys, rest: seq<Sys>)
    requires rest != [] && Advance(g, t) == Some(rest[0])
    requires forall i :: 0 <= i < |rest| - 1 ==> AdvancesAt(g, rest, i)
    ensures forall i :: 0 <= i < |rest| ==> AdvancesAt(g, [t] + rest, i)
  {
    forall i | 0 <= i < |rest| ensures AdvancesAt(g, [t] + rest, i) {
      if i > 0 { assert AdvancesAt(g, rest, i - 1); }
    }
  }

  // ---- Durability of whole transactions ----

  /** The writes that survive a crash now, and those that would be lost. */
  datatype Journal = Journal(durable: seq<(int, Block)>, pending: seq<(int, Block)>)

  function Keep(g: Geometry, s: Sys, e: Event, j: Journal): Journal {
    match e
    case Write(_, b, data) => j.(pending := j.pending + [(b, data)])
    case Tick => if s.phase.Heading? then Journal(j.durable + j.pending, []) else j
    case Crash => j.(pending := [])
    case _ => j
  }

  function JournalOf(g: Geometry, s: Sys, es: seq<Event>): Journal
    requires Run(g, s, es).Some?
    decreases |es|
  {
    if es == [] then Journal([], []) else
      RunPrefix(g, s, es);
      Keep(g, Run(g, s, es[..|es| - 1]).value, es[|es| - 1], JournalOf(g, s, es[..|es| - 1]))
  }

  function Replay(h: Disk, ws: seq<(int, Block)>): (h': Disk)
    ensures |h'| == |h|
    decreases |ws|
  {
    if ws == [] then h else Put(Replay(h, ws[..|ws| - 1]), ws[|ws| - 1].0, ws[|ws| - 1].1)
  }

  lemma ReplayLast(h: Disk, ws: seq<(int, Block)>, w: (int, Block))
    ensures Replay(h, ws + [w]) == Put(Replay(h, ws), w.0, w.1)
  {
    assert (ws + [w])[..|ws|] == ws;
  }

  /** The atomic disk that started as `h` and received the journal's writes. */
  function Replayed(h: Disk, j: Journal): Atomic {
    Atomic(Replay(h, j.durable), Replay(h, j.durable + j.pending))
  }

  lemma JournalStep(g: Geometry, h: Disk, t: Sys, j: Journal, e: Event, a': Atomic)
    requires AtomicStep(g, t, e, Replayed(h, j), a')
    ensures a' == Replayed(h, Keep(g, t, e, j))
  {
    var j' := Keep(g, t, e, j);
    match e
    case Write(_, b, data) =>
      ReplayLast(h, j.durable + j.pending, (b, data));
      assert j'.durable + j'.pending == (j.durable + j.pending) + [(b, data)];
    case Tick =>
      assert j'.durable + j'.pending == j.durable + j.pending;
    case Crash =>
      assert j'.durable + j'.pending == j.durable;
    case _ =>
  }

  /** Every run, crashes included: the durable disk is the boot disk with exactly the durable writes
      applied in order, readers see the pending ones on top, and blocks are copied (hence a
      transaction becomes durable) only while no operation is active. */
  lemma {:induction false} DurableTransactions(g: Geometry, s: Sys, es: seq<Event>)
    requires Inv(g, s) && s.phase.Booting? && Run(g, s, es).Some?
    ensures var t := Run(g, s, es).value; var j := JournalOf(g, s, es); var h := Logical(g, s.disk);
      && Inv(g, t)
      && Abstract(g, t) == Replayed(h, j)
      && (!t.phase.Running? ==> t.ops == [])
    decreases |es|
  {
    var h := Logical(g, s.disk);
    if es == [] {
      var j := JournalOf(g, s, es);
      assert j.durable + j.pending == [];
    } else {
      var init := es[..|es| - 1];
      RunPrefix(g, s, es);
      DurableTransactions(g, s, init);
      var m := Run(g, s, init).value;
      StepRefines(g, m, es[|es| - 1]);
      JournalStep(g, h, m, JournalOf(g, s, init), es[|es| - 1], Abstract(g, Run(g, s, es).value));
    }
  }

  // ---- All or nothing for each operation ----

  /** A write of operation number `op`. */
  datatype Entry = Entry(op: nat, block: int, data: Block)

  /** The writes by what became of them: durable, not yet decided, lost in a crash.  Operations are numbered as they
      begin; `active` has the numbers of those that have not ended. */
  datatype Ledger = Ledger(durable: seq<Entry>, pending: seq<Entry>, lost: seq<Entry>, active: seq<nat>, next: nat)

  function Enter(s: Sys, e: Event, l: Ledger): Ledger {
    match e
    case Begin => l.(active := l.active + [l.next], next := l.next + 1)
    case Write(k, b, data) => if k < |l.active| then l.(pending := l.pending + [Entry(l.active[k], b, data)]) else l
    case End(k) => if k < |l.active| then l.(active := l.active[..k] + l.active[k + 1..]) else l
    case Tick => if s.phase.Heading? then l.(durable := l.durable + l.pending, pending := []) else l
    case Crash => l.(lost := l.lost + l.pending, pending := [], active := [])
  }

  function LedgerOf(g: Geometry, s: Sys, es: seq<Event>): Ledger
    requires Run(g, s, es).Some?
    decreases |es|
  {
    if es == [] then Ledger([], [], [], [], 0) else
      RunPrefix(g, s, es);
      Enter(Run(g, s, es[..|es| - 1]).value, es[|es| - 1], LedgerOf(g, s, es[..|es| - 1]))
  }

  function Writes(ws: seq<Entry>): seq<(int, Block)> {
    seq(|ws|, i requires 0 <= i < |ws| => (ws[i].block, ws[i].data))
  }

  predicate Before(ws: seq<Entry>, n: nat) { forall i :: 0 <= i < |ws| ==> ws[i].op < n }

  /** No operation has a write in both. */
  predicate Apart(ws: seq<Entry>, us: seq<Entry>) {
    forall i, j :: 0 <= i < |ws| && 0 <= j < |us| ==> ws[i].op != us[j].op
  }

  predicate NotActive(ws: seq<Entry>, active: seq<nat>) {
    forall i, j :: 0 <= i < |ws| && 0 <= j < |active| ==> ws[i].op != active[j]
  }

  /** The writes of an operation are all durable, all undecided or all lost. */
  predicate AllOrNothing(l: Ledger) {
    Apart(l.durable, l.pending) && Apart(l.durable, l.lost) && Apart(l.pending, l.lost)
  }

  predicate LedgerInv(t: Sys, l: Ledger) {
    && |l.active| == |t.ops| && (forall j :: 0 <= j < |l.active| ==> l.active[j] < l.next)
    && Before(l.durable, l.next) && Before(l.pending, l.next) && Before(l.lost, l.next)
    && NotActive(l.durable, l.active) && NotActive(l.lost, l.active) && AllOrNothing(l)
  }

  lemma EnterInv(g: Geometry, t: Sys, e: Event, l: Ledger)
    requires LedgerInv(t, l) && (!t.phase.Running? ==> t.ops == []) && Step(g, t, e).Some?
    ensures LedgerInv(Step(g, t, e).value, Enter(t, e, l))
  {
    EnterNumbers(g, t, e, l);
    EnterApart(g, t, e, l);
  }

  lemma EnterNumbers(g: Geometry, t: Sys, e: Event, l: Ledger)
    requires LedgerInv(t, l) && (!t.phase.Running? ==> t.ops == []) && Step(g, t, e).Some?
    ensures var l' := Enter(t, e, l);
      && |l'.active| == |Step(g, t, e).value.ops| && (forall j :: 0 <= j < |l'.active| ==> l'.active[j] < l'.next)
      && Before(l'.durable, l'.next) && Before(l'.pending, l'.next) && Before(l'.lost, l'.next)
  {
  }

  lemma EnterApart(g: Geometry, t: Sys, e: Event, l: Ledger)
    requires LedgerInv(t, l) && (!t.phase.Running? ==> t.ops == []) && Step(g, t, e).Some?
    ensures var l' := Enter(t, e, l);
      NotActive(l'.durable, l'.active) && NotActive(l'.lost, l'.active) && AllOrNothing(l')
  {
  }

  lemma WritesJoin(ws: seq<Entry>, us: seq<Entry>)
    ensures Writes(ws + us) == Writes(ws) + Writes(us)
  {
  }

  lemma EnterKeeps(g: Geometry, t: Sys, e: Event, l: Ledger, j: Journal)
    requires |l.active| == |t.ops| && Step(g, t, e).Some? && Writes(l.durable) == j.durable
    requires Writes(l.pending) == j.pending
    ensures var l', j' := Enter(t, e, l), Keep(g, t, e, j);
      Writes(l'.durable) == j'.durable && Writes(l'.pending) == j'.pending
  {
    WritesJoin(l.durable, l.pending);
    if e.Write? { WritesJoin(l.pending, [Entry(l.active[e.op], e.block, e.data)]); }
  }

  /** The ledger fits the state and the journal, and nothing is undecided right after a crash. */
  predicate Accounts(t: Sys, l: Ledger, j: Journal) {
    && LedgerInv(t, l) && Writes(l.durable) == j.durable && Writes(l.pending) == j.pending
    && (t.phase.Booting? ==> l.pending == [])
  }

  lemma AccountsStep(g: Geometry, t: Sys, e: Event, l: Ledger, j: Journal, t': Sys)
    requires Accounts(t, l, j) && (!t.phase.Running? ==> t.ops == []) && Step(g, t, e) == Some(t')
    ensures Accounts(t', Enter(t, e, l), Keep(g, t, e, j))
  {
    EnterInv(g, t, e, l);
    EnterKeeps(g, t, e, l, j);
  }

  lemma NoOpsOutside(g: Geometry, s: Sys, es: seq<Event>)
    requires Inv(g, s) && s.phase.Booting? && Run(g, s, es).Some?
    ensures var t := Run(g, s, es).value; !t.phase.Running? ==> t.ops == []
  {
    DurableTransactions(g, s, es);
  }

  /** Every run, crashes included: the writes of each operation are all durable, all undecided or all lost, and the
      durable and undecided writes are those of the journal that the disk replays. */
  lemma {:induction false} OperationsAtomic(g: Geometry, s: Sys, es: seq<Event>)
    requires Inv(g, s) && s.phase.Booting? && Run(g, s, es).Some?
    ensures Accounts(Run(g, s, es).value, LedgerOf(g, s, es), JournalOf(g, s, es)) && AllOrNothing(LedgerOf(g, s, es))
    decreases |es|
  {
    NoOpsOutside(g, s, es);
    if es != [] {
      var init := es[..|es| - 1];
      RunPrefix(g, s, es);
      NoOpsOutside(g, s, init);
      OperationsAtomic(g, s, init);
      AccountsStep(g, Run(g, s, init).value, es[|es| - 1], LedgerOf(g, s, init), JournalOf(g, s, init),
        Run(g, s, es).value);
    }
  }

  // ---- Group commit and log space ----

  /** No operation adds more than MAXOPBLOCKS new blocks to the log. */
  predicate Disciplined(s: Sys, e: Event) {
    e.Write? && e.op < |s.ops| ==> s.ops[e.op] + AddedBy(s.lh, e.block) <= MAXOPBLOCKS
  }

  predicate DisciplinedRun(g: Geometry, s: Sys, es: seq<Event>)
    decreases |es|
  {
    es == [] ||
    (DisciplinedRun(g, s, es[..|es| - 1]) &&
     match Run(g, s, es[..|es| - 1]) { case None => true case Some(t) => Disciplined(t, es[|es| - 1]) })
  }

  /** Log blocks still reserved by the active operations. */
  function Unused(ops: seq<nat>): int {
    if ops == [] then 0 else MAXOPBLOCKS - ops[0] + Unused(ops[1..])
  }

  lemma {:induction false} UnusedSplit(a: seq<nat>, b: seq<nat>)
    ensures Unused(a + b) == Unused(a) + Unused(b)
  {
    if a == [] {
      assert a + b == b;
    } else {
      assert (a + b)[1..] == a[1..] + b;
      UnusedSplit(a[1..], b);
    }
  }

  lemma UnusedAt(ops: seq<nat>, k: nat)
    requires k < |ops|
    ensures Unused(ops) == Unused(ops[..k]) + (MAXOPBLOCKS - ops[k]) + Unused(ops[k + 1..])
  {
    assert ops == ops[..k] + ([ops[k]] + ops[k + 1..]);
    UnusedSplit(ops[..k], [ops[k]] + ops[k + 1..]);
    UnusedSplit([ops[k]], ops[k + 1..]);
  }

  lemma {:induction false} UnusedBound(ops: seq<nat>)
    ensures Unused(ops) <= |ops| * MAXOPBLOCKS
    ensures (forall k :: 0 <= k < |ops| ==> ops[k] <= MAXOPBLOCKS) ==> 0 <= Unused(ops)
  {
    if ops != [] { UnusedBound(ops[1..]); }
  }

  ghost predicate SpaceInv(s: Sys) {
    && (forall k :: 0 <= k < |s.ops| ==> s.ops[k] <= MAXOPBLOCKS)
    && |s.lh| + Unused(s.ops) <= LOGSIZE
  }

  lemma UnusedMore(ops: seq<nat>)
    ensures Unused(ops + [0]) == Unused(ops) + MAXOPBLOCKS
  {
    UnusedSplit(ops, [0]);
  }

  lemma UnusedUpdate(ops: seq<nat>, k: nat, v: nat)
    requires k < |ops|
    ensures Unused(ops[k := v]) == Unused(ops) + ops[k] - v
  {
    var ops' := ops[k := v];
    UnusedAt(ops, k);
    UnusedAt(ops', k);
    assert ops'[..k] == ops[..k] && ops'[k + 1..] == ops[k + 1..];
  }

  lemma UnusedWithout(ops: seq<nat>, k: nat)
    requires k < |ops|
    ensures Unused(Without(ops, k)) == Unused(ops) - (MAXOPBLOCKS - ops[k])
  {
    UnusedAt(ops, k);
    UnusedSplit(ops[..k], ops[k + 1..]);
  }

  lemma SpaceEnd(s: Sys, k: nat)
    requires SpaceInv(s) && k < |s.ops|
    ensures SpaceInv(EndOp(s, k))
  {
    UnusedWithout(s.ops, k);
    UnusedBound(s.ops);
    assert forall j :: 0 <= j < |Without(s.ops, k)| ==> Without(s.ops, k)[j] == s.ops[if j < k then j else j + 1];
  }

  lemma SpaceTick(g: Geometry, s: Sys)
    requires Inv(g, s) && SpaceInv(s) && Advance(g, s).Some?
    ensures SpaceInv(Advance(g, s).value)
  {
  }

  lemma SpaceStep(g: Geometry, s: Sys, e: Event)
    requires Inv(g, s) && SpaceInv(s) && Disciplined(s, e) && Step(g, s, e).Some?
    ensures SpaceInv(Step(g, s, e).value)
  {
    match e
    case Begin =>
      UnusedMore(s.ops);
      UnusedBound(s.ops);
    case Write(k, b, data) => UnusedUpdate(s.ops, k, s.ops[k] + AddedBy(s.lh, b));
    case End(k) => SpaceEnd(s, k);
    case Tick => SpaceTick(g, s);
    case Crash =>
  }

  /** Group commit: in every run of disciplined operations the logged blocks are distinct home
      blocks, no operation is active while blocks are copied, and the logged blocks together with the
      unused reservations fit the log header. */
  lemma {:induction false} GroupCommit(g: Geometry, s: Sys, es: seq<Event>)
    requires Inv(g, s) && SpaceInv(s) && Run(g, s, es).Some? && DisciplinedRun(g, s, es)
    ensures var t := Run(g, s, es).value;
      && Inv(g, t) && SpaceInv(t)
      && Distinct(t.lh) && (forall i :: 0 <= i < |t.lh| ==> IsHome(g, t.disk, t.lh[i]))
      && (!t.phase.Running? ==> t.ops == [])
      && |t.lh| + Unused(t.ops) <= LOGSIZE
    decreases |es|
  {
    if es != [] {
      RunPrefix(g, s, es);
      GroupCommit(g, s, es[..|es| - 1]);
      var m := Run(g, s, es[..|es| - 1]).value;
      StepRefines(g, m, es[|es| - 1]);
      SpaceStep(g, m, es[|es| - 1]);
    }
  }

  // ---- The "too big a transaction" panic ----

  /** With a log larger than LOGSIZE blocks, a write that stays within its operation's budget and
      names a new block never panics. */
  lemma RoomyNeverTooBig(g: Geometry, s: Sys, e: Event)
    requires SpaceInv(s) && e.Write? && e.op < |s.ops|
    requires Disciplined(s, e) && AddedBy(s.lh, e.block) == 1 && g.size > LOGSIZE
    ensures !TooBig(g, s)
  {
    UnusedAt(s.ops, e.op);
    UnusedBound(s.ops[..e.op]);
    UnusedBound(s.ops[e.op + 1..]);
  }

  /** Three operations writing ten new blocks each. */
  function Filler(g: Geometry, i: nat): Event {
    if i < 3 then Begin else Write((i - 3) / MAXOPBLOCKS, g.start + g.size + (i - 3), [])
  }

  function Fillers(g: Geometry, n: nat): seq<Event> {
    if n == 0 then [] else Fillers(g, n - 1) + [Filler(g, n - 1)]
  }

  function Used(i: nat, k: nat): nat {
    if i <= k * MAXOPBLOCKS then 0 else if i >= (k + 1) * MAXOPBLOCKS then MAXOPBLOCKS else i - k * MAXOPBLOCKS
  }

  predicate Filled(g: Geometry, t: Sys, i: nat) {
    && t.phase.Running? && !t.committing
    && |t.lh| == i && (forall j :: 0 <= j < i ==> t.lh[j] == g.start + g.size + j)
    && t.ops == [Used(i, 0), Used(i, 1), Used(i, 2)]
  }

  lemma BeginOne(g: Geometry, s: Sys, es: seq<Event>, m: Sys, m': Sys)
    requires Run(g, s, es) == Some(m) && DisciplinedRun(g, s, es) && m.phase.Running? && MayBegin(m)
    requires m' == m.(ops := m.ops + [0])
    ensures Run(g, s, es + [Begin]) == Some(m') && DisciplinedRun(g, s, es + [Begin])
  {
    RunExtend(g, s, es, Begin);
  }

  lemma ThreeBegin(g: Geometry, s: Sys)
    requires Inv(g, s) && s.phase.Running? && s.ops == [] && s.lh == []
    ensures var r := Run(g, s, Fillers(g, 3)); r.Some? && Filled(g, r.value, 0) && |r.value.disk| == |s.disk|
    ensures DisciplinedRun(g, s, Fillers(g, 3))
  {
    var s1, s2, s3 := s.(ops := [0]), s.(ops := [0, 0]), s.(ops := [0, 0, 0]);
    FillersBegin(g);
    BeginOne(g, s, [], s, s1);
    assert [] + [Begin] == [Begin];
    BeginOne(g, s, [Begin], s1, s2);
    BeginOne(g, s, [Begin] + [Begin], s2, s3);
    assert Filled(g, s3, 0);
  }

  lemma FillersBegin(g: Geometry)
    ensures Fillers(g, 3) == [Begin] + [Begin] + [Begin]
  {
    assert Fillers(g, 0) == [];
    assert Fillers(g, 1) == [Begin];
    assert Fillers(g, 2) == [Begin] + [Begin];
  }

  lemma FillOne(g: Geometry, m: Sys, i: nat)
    requires Filled(g, m, i) && i + 1 < g.size && i < LOGSIZE && g.start + g.size + LOGSIZE <= |m.disk|
    ensures var e := Filler(g, 3 + i);
      && Step(g, m, e).Some? && Filled(g, Step(g, m, e).value, i + 1) && |Step(g, m, e).value.disk| == |m.disk|
      && Disciplined(m, e)
  {
    var e := Filler(g, 3 + i);
    assert Find(m.lh, e.block) == |m.lh|;
  }

  lemma {:induction false} Fill(g: Geometry, s: Sys, i: nat)
    requires Inv(g, s) && s.phase.Running? && s.ops == [] && s.lh == []
    requires i < g.size && i <= LOGSIZE && g.start + g.size + LOGSIZE <= |s.disk|
    ensures var r := Run(g, s, Fillers(g, 3 + i)); r.Some? && Filled(g, r.value, i) && |r.value.disk| == |s.disk|
    ensures DisciplinedRun(g, s, Fillers(g, 3 + i))
  {
    if i == 0 {
      ThreeBegin(g, s);
    } else {
      Fill(g, s, i - 1);
      var es := Fillers(g, 3 + i - 1);
      FillOne(g, Run(g, s, es).value, i - 1);
      RunExtend(g, s, es, Filler(g, 3 + i - 1));
    }
  }

  /** After the disciplined run `es`, the write `e` is within its operation's budget, would add `added` blocks to
      the log and panics. */
  predicate Panics(g: Geometry, s: Sys, es: seq<Event>, e: Event, added: nat) {
    && DisciplinedRun(g, s, es)
    && Run(g, s, es).Some?
    && e.Write?
    && var t := Run(g, s, es).value;
       && e.op < |t.ops| && Disciplined(t, e) && IsHome(g, t.disk, e.block)
       && AddedBy(t.lh, e.block) == added
       && TooBig(g, t)
  }

  lemma TightLogPanics(g: Geometry, s: Sys) returns (es: seq<Event>, e: Event)
    requires Inv(g, s) && s.phase.Running? && s.ops == [] && s.lh == []
    requires g.size <= LOGSIZE && g.start + g.size + LOGSIZE <= |s.disk|
    ensures Panics(g, s, es, e, 1)
  {
    var n := g.size - 1;
    Fill(g, s, n);
    es := Fillers(g, 3 + n);
    e := Write(n / MAXOPBLOCKS, g.start + g.size + n, []);
    var t := Run(g, s, es).value;
    assert Find(t.lh, e.block) == |t.lh|;
    assert Disciplined(t, e);
  }

  /** Operations that keep within MAXOPBLOCKS can hit the size panic on a new block exactly when the
      log has at most LOGSIZE blocks; mkfs makes it exactly LOGSIZE. */
  lemma PanicReachableIff(g: Geometry, s: Sys)
    requires Inv(g, s) && s.phase.Running? && s.ops == [] && s.lh == []
    requires g.start + g.size + LOGSIZE <= |s.disk|
    ensures (exists es: seq<Event>, e: Event :: Panics(g, s, es, e, 1)) <==> g.size <= LOGSIZE
  {
    if g.size <= LOGSIZE {
      var es, e := TightLogPanics(g, s);
    } else {
      forall es: seq<Event>, e: Event
        ensures !Panics(g, s, es, e, 1)
      {
        if Panics(g, s, es, e, 1) {
          GroupCommit(g, s, es);
          RoomyNeverTooBig(g, Run(g, s, es).value, e);
        }
      }
    }
  }

  /** The same panic meets writes of blocks that are already logged and need no room, whatever the size of the
      log, as soon as it can hold a block at all. */
  lemma AbsorbedPanicIff(g: Geometry, s: Sys)
    requires Inv(g, s) && s.phase.Running? && s.ops == [] && s.lh == []
    requires g.start + g.size + LOGSIZE <= |s.disk|
    ensures (exists es: seq<Event>, e: Event :: Panics(g, s, es, e, 0)) <==> g.size >= 2
  {
    if g.size >= 2 {
      var es, e := FullLogPanics(g, s);
    } else {
      forall es: seq<Event>, e: Event
        ensures !Panics(g, s, es, e, 0)
      {
        if Panics(g, s, es, e, 0) { GroupCommit(g, s, es); }
      }
    }
  }

  lemma FullLogPanics(g: Geometry, s: Sys) returns (es: seq<Event>, e: Event)
    requires Inv(g, s) && s.phase.Running? && s.ops == [] && s.lh == []
    requires g.size >= 2 && g.start + g.size + LOGSIZE <= |s.disk|
    ensures Panics(g, s, es, e, 0)
  {
    var n := if g.size <= LOGSIZE then g.size - 1 else LOGSIZE;
    Fill(g, s, n);
    es := Fillers(g, 3 + n);
    e := Write(0, g.start + g.size, []);
    var t := Run(g, s, es).value;
    assert t.lh[0] == e.block && Find(t.lh, e.block) < |t.lh|;
  }
}
