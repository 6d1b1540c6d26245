/** pipe.c: the ring of a pipe with 32-bit counters that wrap, and the threads that read and write it.  What runs
    between acquiring and giving up the pipe's lock is one step. */
module PipeBuffer {
  import opened Helpers

  const PIPESIZE: nat := 512
  const UINT: nat := 0x1_0000_0000

  datatype Pipe = Pipe(data: seq<int>, nread: nat, nwrite: nat, readopen: bool, writeopen: bool)

  predicate Fits(p: Pipe) { |p.data| == PIPESIZE && p.nread < UINT && p.nwrite < UINT }

  predicate Full(p: Pipe) { p.nwrite == (p.nread + PIPESIZE) % UINT }

  predicate Empty(p: Pipe) { p.nread == p.nwrite }

  function Put(p: Pipe, b: int): (p': Pipe)
    requires Fits(p)
    ensures Fits(p')
  {
    p.(data := p.data[p.nwrite % PIPESIZE := b], nwrite := (p.nwrite + 1) % UINT)
  }

  function Get(p: Pipe): (r: (Pipe, int))
    requires Fits(p)
    ensures Fits(r.0)
  {
    (p.(nread := (p.nread + 1) % UINT), p.data[p.nread % PIPESIZE])
  }

  /** The loop of pipewrite until it is done or the pipe is full; the second part is what did not fit. */
  function Fill(p: Pipe, src: seq<int>): (r: (Pipe, seq<int>))
    requires Fits(p)
    ensures Fits(r.0)
    decreases |src|
  {
    if src == [] || Full(p) then (p, src) else Fill(Put(p, src[0]), src[1..])
  }

  /** The copy loop of piperead. */
  function Drain(p: Pipe, n: nat): (r: (Pipe, seq<int>))
    requires Fits(p)
    ensures Fits(r.0)
    decreases n
  {
    if n == 0 || Empty(p) then (p, []) else
      var (p1, b) := Get(p);
      var (p2, rest) := Drain(p1, n - 1);
      (p2, [b] + rest)
  }

  // ---- The same loops on the fields of the structure ----

  class PipeT {
    var data: array<int>
    var nread: nat
    var nwrite: nat
    var readopen: bool
    var writeopen: bool

    ghost function Value(): Pipe
      reads this, data
    {
      Pipe(data[..], nread, nwrite, readopen, writeopen)
    }

    ghost predicate Valid()
      reads this, data
    {
      Fits(Value())
    }

    /** The fields pipealloc sets. */
    constructor ()
      ensures Valid() && fresh(data) && nread == 0 && nwrite == 0 && readopen && writeopen
    {
      data := new int[PIPESIZE](_ => 0);
      nread, nwrite, readopen, writeopen := 0, 0, true, true;
    }

    /** Stores bytes until `src` is used up or the pipe is full. */
    method WriteBurst(src: seq<int>) returns (i: nat)
      requires Valid()
      modifies this`nwrite, data
      ensures Valid() && data == old(data) && i <= |src|
      ensures (Value(), src[i..]) == Fill(old(Value()), src)
    {
      i := 0;
      assert src[0..] == src;
      while i < |src| && nwrite != (nread + PIPESIZE) % UINT
        invariant 0 <= i <= |src| && Valid() && Fill(Value(), src[i..]) == Fill(old(Value()), src)
      {
        ghost var before := Value();
        data[nwrite % PIPESIZE] := src[i];
        nwrite := (nwrite + 1) % UINT;
        assert Value() == Put(before, src[i]);
        assert src[i..][1..] == src[i + 1..];
        i := i + 1;
      }
    }

    /** Takes up to `n` bytes. */
    method ReadBurst(n: nat) returns (dst: seq<int>)
      requires Valid()
      modifies this`nread
      ensures Valid() && (Value(), dst) == Drain(old(Value()), n)
    {
      dst := [];
      var i := 0;
      ghost var all := Drain(Value(), n);
      while i < n
        invariant 0 <= i <= n && Valid()
        invariant Drain(Value(), n - i).0 == all.0 && dst + Drain(Value(), n - i).1 == all.1
      {
        if nread == nwrite { break; }
        ghost var p := Value();
        Associative(dst, [Get(p).1], Drain(Get(p).0, n - i - 1).1);
        dst := dst + [data[nread % PIPESIZE]];
        nread := (nread + 1) % UINT;
        assert Value() == Get(p).0;
        i := i + 1;
      }
      assert dst + [] == dst;
    }
  }

  lemma Associative(a: seq<int>, b: seq<int>, c: seq<int>)
    ensures a + (b + c) == (a + b) + c
  {
  }

  // ---- The ring against the bytes of the whole run ----

  /** `stored` is every byte ever stored; the first `r` of them have been read. */
  predicate Ring(p: Pipe, stored: seq<int>, r: nat) {
    && Fits(p) && r <= |stored| <= r + PIPESIZE
    && p.nread == r % UINT && p.nwrite == |stored| % UINT
    && forall k :: r <= k < |stored| ==> p.data[k % PIPESIZE] == stored[k]
  }

  /** 512 divides 2^32, so slots and wrapped counters agree. */
  lemma SlotOf(k: nat)
    ensures k % UINT % PIPESIZE == k % PIPESIZE
    ensures (k % UINT + 1) % UINT == (k + 1) % UINT
  {
  }

  lemma SlotsApart(a: nat, b: nat)
    requires a < b < a + PIPESIZE
    ensures a % PIPESIZE != b % PIPESIZE
  {
  }

  lemma RingTests(p: Pipe, stored: seq<int>, r: nat)
    requires Ring(p, stored, r)
    ensures Full(p) <==> |stored| == r + PIPESIZE
    ensures Empty(p) <==> |stored| == r
    ensures (p.nwrite - p.nread) % UINT == |stored| - r
  {
  }

  lemma PutRing(p: Pipe, stored: seq<int>, r: nat, b: int)
    requires Ring(p, stored, r) && !Full(p)
    ensures Ring(Put(p, b), stored + [b], r)
  {
    RingTests(p, stored, r);
    SlotOf(|stored|);
    forall k | r <= k <= |stored| ensures Put(p, b).data[k % PIPESIZE] == (stored + [b])[k] {
      if k < |stored| { SlotsApart(k, |stored|); }
    }
  }

  lemma GetRing(p: Pipe, stored: seq<int>, r: nat)
    requires Ring(p, stored, r) && !Empty(p)
    ensures r < |stored| && Get(p).1 == stored[r] && Ring(Get(p).0, stored, r + 1)
  {
    RingTests(p, stored, r);
    SlotOf(r);
  }

  function Min(a: int, b: int): int { if a < b then a else b }

  /** A burst stores a prefix of its bytes: all of them, or as many as there is room for. */
  lemma {:induction false} FillRing(p: Pipe, stored: seq<int>, r: nat, src: seq<int>)
    requires Ring(p, stored, r)
    ensures FilledUp(p, stored, r, src, Fill(p, src).0, Fill(p, src).1)
    decreases |src|
  {
    RingTests(p, stored, r);
    if src == [] || Full(p) {
      assert stored + src[..0] == stored && src[0..] == src;
    } else {
      PutRing(p, stored, r, src[0]);
      var (p', rest) := Fill(Put(p, src[0]), src[1..]);
      FillRing(Put(p, src[0]), stored + [src[0]], r, src[1..]);
      FilledStep(p, stored, r, src, p', rest);
    }
  }

  /** The first bytes of `src` have been stored, and `rest` are the others. */
  predicate FilledUp(p: Pipe, stored: seq<int>, r: nat, src: seq<int>, p': Pipe, rest: seq<int>) {
    var k := Min(|src|, r + PIPESIZE - |stored|);
    && 0 <= k <= |src| && rest == src[k..] && Ring(p', stored + src[..k], r)
    && p'.readopen == p.readopen && p'.writeopen == p.writeopen
  }

  lemma FilledStep(p: Pipe, stored: seq<int>, r: nat, src: seq<int>, p': Pipe, rest: seq<int>)
    requires src != [] && |stored| < r + PIPESIZE && FilledUp(p, stored + [src[0]], r, src[1..], p', rest)
    ensures FilledUp(p, stored, r, src, p', rest)
  {
    var k := Min(|src|, r + PIPESIZE - |stored|);
    assert src[1..][k - 1..] == src[k..];
    assert stored + [src[0]] + src[1..][..k - 1] == stored + src[..k];
  }

  /** A read returns the oldest unread bytes: `n` of them, or all there are. */
  lemma {:induction false} DrainRing(p: Pipe, stored: seq<int>, r: nat, n: nat)
    requires Ring(p, stored, r)
    ensures Drained(p, stored, r, n, Drain(p, n).0, Drain(p, n).1)
    decreases n
  {
    RingTests(p, stored, r);
    if n > 0 && !Empty(p) {
      GetRing(p, stored, r);
      var (p', rest) := Drain(Get(p).0, n - 1);
      DrainRing(Get(p).0, stored, r + 1, n - 1);
      DrainedStep(p, stored, r, n, p', rest);
      assert Drain(p, n) == (p', [stored[r]] + rest);
    }
  }

  /** `got` is the next `n` bytes, or all there are, and no others have left the pipe. */
  predicate Drained(p: Pipe, stored: seq<int>, r: nat, n: nat, p': Pipe, got: seq<int>)
    requires r <= |stored|
  {
    var k := Min(n, |stored| - r);
    && 0 <= k && got == stored[r..r + k] && Ring(p', stored, r + k)
    && p'.readopen == p.readopen && p'.writeopen == p.writeopen
  }

  lemma DrainedStep(p: Pipe, stored: seq<int>, r: nat, n: nat, p': Pipe, got: seq<int>)
    requires r < |stored| && n > 0 && Drained(p, stored, r + 1, n - 1, p', got)
    ensures Drained(p, stored, r, n, p', [stored[r]] + got)
  {
    SliceStep(stored, r, r + Min(n, |stored| - r));
  }

  lemma SliceStep(s: seq<int>, a: nat, b: nat)
    requires a < b <= |s|
    ensures s[a..b] == [s[a]] + s[a + 1..b]
  {
  }

  // ---- Threads ----

  /** A thread outside the pipe, in pipewrite with bytes left, or in piperead; asleep or ready to run. */
  datatype Pc = Idle | Writer(rest: seq<int>, asleep: bool) | Reader(n: nat, asleep: bool)

  /** The pipe, the threads and their killed flags, and what was ever stored and read. */
  datatype Sys = Sys(pipe: Pipe, pc: seq<Pc>, killed: seq<bool>, stored: seq<int>, got: seq<int>)

  datatype Event = StartWrite(i: int, src: seq<int>) | StartRead(i: int, n: nat) | Run(i: int) | Kill(i: int)
    | CloseRead | CloseWrite

  predicate IsAsleep(p: Pc, writer: bool) { if writer then p.Writer? && p.asleep else p.Reader? && p.asleep }

  /** wakeup on the writers' or the readers' channel */
  function Wake(pc: seq<Pc>, writer: bool): (pc': seq<Pc>)
    ensures |pc'| == |pc|
    ensures forall j :: 0 <= j < |pc| ==> pc'[j] == if IsAsleep(pc[j], writer) then pc[j].(asleep := false) else pc[j]
  {
    seq(|pc|, j requires 0 <= j < |pc| => if IsAsleep(pc[j], writer) then pc[j].(asleep := false) else pc[j])
  }

  /** pipewrite from where it stands until it returns or sleeps. */
  function RunWriter(s: Sys, i: int, rest: seq<int>): Sys
    requires Fits(s.pipe) && 0 <= i < |s.pc| && |s.killed| == |s.pc|
  {
    var (p', left) := Fill(s.pipe, rest);
    var s1 := s.(pipe := p', stored := s.stored + rest[..Max(0, |rest| - |left|)]);
    if left == [] then s1.(pc := Wake(s.pc, false)[i := Idle])
    else if !s.pipe.readopen || s.killed[i] then s1.(pc := s.pc[i := Idle])
    else s1.(pc := Wake(s.pc, false)[i := Writer(left, true)])
  }

  function Max(a: int, b: int): int { if a > b then a else b }

  /** piperead from where it stands until it returns or sleeps. */
  function RunReader(s: Sys, i: int, n: nat): Sys
    requires Fits(s.pipe) && 0 <= i < |s.pc| && |s.killed| == |s.pc|
  {
    if Empty(s.pipe) && s.pipe.writeopen then s.(pc := s.pc[i := if s.killed[i] then Idle else Reader(n, true)])
    else
      var (p', bytes) := Drain(s.pipe, n);
      s.(pipe := p', got := s.got + bytes, pc := Wake(s.pc, true)[i := Idle])
  }

  function Step(s: Sys, e: Event): Option<Sys>
    requires Fits(s.pipe) && |s.killed| == |s.pc|
  {
    match e
    case StartWrite(i, src) =>
      if 0 <= i < |s.pc| && s.pc[i] == Idle then Some(s.(pc := s.pc[i := Writer(src, false)])) else None
    case StartRead(i, n) =>
      if 0 <= i < |s.pc| && s.pc[i] == Idle then Some(s.(pc := s.pc[i := Reader(n, false)])) else None
    case Run(i) =>
      if 0 <= i < |s.pc| && s.pc[i].Writer? && !s.pc[i].asleep then Some(RunWriter(s, i, s.pc[i].rest))
      else if 0 <= i < |s.pc| && s.pc[i].Reader? && !s.pc[i].asleep then Some(RunReader(s, i, s.pc[i].n))
      else None
    case Kill(i) =>
      if 0 <= i < |s.pc| then
        Some(s.(killed := s.killed[i := true],
                pc := if s.pc[i] == Idle then s.pc else s.pc[i := s.pc[i].(asleep := false)]))
      else None
    case CloseRead => Some(s.(pipe := s.pipe.(readopen := false), pc := Wake(s.pc, true)))
    case CloseWrite => Some(s.(pipe := s.pipe.(writeopen := false), pc := Wake(s.pc, false)))
  }

  /** A writer sleeps only on a full pipe whose read end is open. */
  predicate WritersOk(s: Sys) {
    forall j :: 0 <= j < |s.pc| && IsAsleep(s.pc[j], true) ==> Full(s.pipe) && s.pipe.readopen
  }

  /** A reader sleeps only on an empty pipe whose write end is open. */
  predicate ReadersOk(s: Sys) {
    forall j :: 0 <= j < |s.pc| && IsAsleep(s.pc[j], false) ==> Empty(s.pipe) && s.pipe.writeopen
  }

  predicate Inv(s: Sys) {
    && |s.killed| == |s.pc| && |s.got| <= |s.stored|
    && Ring(s.pipe, s.stored, |s.got|) && s.got == s.stored[..|s.got|]
    && WritersOk(s)
  }

  lemma RunWriterInv(s: Sys, i: int, rest: seq<int>)
    requires Inv(s) && 0 <= i < |s.pc| && s.pc[i] == Writer(rest, false)
    ensures Inv(RunWriter(s, i, rest))
  {
    FillRing(s.pipe, s.stored, |s.got|, rest);
    var (p', left) := Fill(s.pipe, rest);
    var k := Min(|rest|, |s.got| + PIPESIZE - |s.stored|);
    RingTests(s.pipe, s.stored, |s.got|);
    RingTests(p', s.stored + rest[..k], |s.got|);
    var s' := RunWriter(s, i, rest);
    assert s'.stored == s.stored + rest[..k];
    assert s'.got == s'.stored[..|s'.got|];
  }

  lemma RunReaderInv(s: Sys, i: int, n: nat)
    requires Inv(s) && 0 <= i < |s.pc| && s.pc[i] == Reader(n, false)
    ensures Inv(RunReader(s, i, n))
  {
    DrainRing(s.pipe, s.stored, |s.got|, n);
    var k := Min(n, |s.stored| - |s.got|);
    assert s.stored[..|s.got|] + s.stored[|s.got|..|s.got| + k] == s.stored[..|s.got| + k];
  }

  lemma StepInv(s: Sys, e: Event)
    requires Inv(s) && Step(s, e).Some?
    ensures Inv(Step(s, e).value)
  {
    match e
    case Run(i) => if s.pc[i].Writer? { RunWriterInv(s, i, s.pc[i].rest); } else { RunReaderInv(s, i, s.pc[i].n); }
    case _ =>
  }

  predicate Initial(s: Sys) {
    && Fits(s.pipe) && s.pipe.nread == 0 && s.pipe.nwrite == 0 && s.stored == [] && s.got == []
    && |s.killed| == |s.pc| && forall j :: 0 <= j < |s.pc| ==> s.pc[j] == Idle
  }

  ghost predicate IsRun(states: seq<Sys>, events: seq<Event>) {
    && |states| == |events| + 1
    && forall k :: 0 <= k < |events| ==>
         Fits(states[k].pipe) && |states[k].killed| == |states[k].pc| &&
           Step(states[k], events[k]) == Some(states[k + 1])
  }

  /** In every state of every run the bytes read are a prefix of the bytes stored, across any wrap of the
      counters, at most 512 bytes are in the pipe, and sleeping writers face a full pipe with an open read end. */
  lemma {:induction false} RunInv(states: seq<Sys>, events: seq<Event>, k: nat)
    requires IsRun(states, events) && Initial(states[0]) && k <= |events|
    ensures Inv(states[k]) && states[k].got <= states[k].stored
    ensures (states[k].pipe.nwrite - states[k].pipe.nread) % UINT == |states[k].stored| - |states[k].got| <= PIPESIZE
  {
    if k > 0 {
      RunInv(states, events, k - 1);
      StepInv(states[k - 1], events[k - 1]);
    }
    RingTests(states[k].pipe, states[k].stored, |states[k].got|);
  }

  // ---- The readers' side ----

  /** A ready writer will stop short on the -1 path having stored a byte, and so wake nobody, while a reader
      sleeps. */
  predicate LeavesUnannounced(s: Sys, e: Event)
    requires Fits(s.pipe) && |s.killed| == |s.pc|
  {
    && e.Run? && 0 <= e.i < |s.pc| && s.pc[e.i].Writer? && !s.pc[e.i].asleep
    && |s.pc[e.i].rest| > (s.pipe.nread - s.pipe.nwrite + PIPESIZE) % UINT && !Full(s.pipe)
    && (!s.pipe.readopen || s.killed[e.i])
    && exists j :: 0 <= j < |s.pc| && IsAsleep(s.pc[j], false)
  }

  /** Sleeping readers go on facing an empty pipe after exactly those steps that are not such an exit. */
  lemma ReadersStep(s: Sys, e: Event)
    requires Inv(s) && ReadersOk(s) && Step(s, e).Some?
    ensures ReadersOk(Step(s, e).value) <==> !LeavesUnannounced(s, e)
  {
    RingTests(s.pipe, s.stored, |s.got|);
    var s' := Step(s, e).value;
    if e.Run? && s.pc[e.i].Writer? {
      FillRing(s.pipe, s.stored, |s.got|, s.pc[e.i].rest);
      var k := Min(|s.pc[e.i].rest|, |s.got| + PIPESIZE - |s.stored|);
      RingTests(s'.pipe, s.stored + s.pc[e.i].rest[..k], |s.got|);
      if LeavesUnannounced(s, e) {
        var j :| 0 <= j < |s.pc| && IsAsleep(s.pc[j], false);
        assert IsAsleep(s'.pc[j], false);
      }
    } else if e.Run? {
      DrainRing(s.pipe, s.stored, |s.got|, s.pc[e.i].n);
    }
  }

  /** Over a run: no sleeping reader misses a byte as long as no step is such an exit. */
  lemma {:induction false} RunReaders(states: seq<Sys>, events: seq<Event>, k: nat)
    requires IsRun(states, events) && Initial(states[0]) && k <= |events|
    requires forall j :: 0 <= j < k ==> !LeavesUnannounced(states[j], events[j])
    ensures ReadersOk(states[k])
  {
    if k > 0 {
      RunReaders(states, events, k - 1);
      RunInv(states, events, k - 1);
      ReadersStep(states[k - 1], events[k - 1]);
    }
  }

  /** An empty pipe with a reader and a writer */
  function Between(r: Pc, w: Pc, killed: bool): Sys {
    Sys(Pipe(seq(PIPESIZE, _ => 0), 0, 0, true, true), [r, w], [false, killed], [], [])
  }

  function Long(): seq<int> { seq(PIPESIZE + 1, _ => 7) }

  /** The reader goes to sleep, and a writer with 513 bytes is killed before it runs. */
  function KilledEvents(): seq<Event> { [StartRead(0, 1), Run(0), StartWrite(1, Long()), Kill(1)] }

  function KilledStates(): seq<Sys> {
    [Between(Idle, Idle, false), Between(Reader(1, false), Idle, false), Between(Reader(1, true), Idle, false),
     Between(Reader(1, true), Writer(Long(), false), false), Between(Reader(1, true), Writer(Long(), false), true)]
  }

  lemma Pairs<T>(a: T, b: T, c: T)
    ensures [a, b][0 := c] == [c, b] && [a, b][1 := c] == [a, c]
  {
  }

  lemma KilledRun()
    ensures IsRun(KilledStates(), KilledEvents()) && Initial(KilledStates()[0])
  {
    var states, events := KilledStates(), KilledEvents();
    Pairs<Pc>(Idle, Idle, Reader(1, false));
    Pairs<Pc>(Reader(1, false), Idle, Reader(1, true));
    Pairs<Pc>(Reader(1, true), Idle, Writer(Long(), false));
    Pairs<Pc>(Reader(1, true), Writer(Long(), false), Writer(Long(), false));
    Pairs<bool>(false, false, true);
    assert Step(states[0], events[0]) == Some(states[1]) && Step(states[1], events[1]) == Some(states[2]);
    assert Step(states[2], events[2]) == Some(states[3]) && Step(states[3], events[3]) == Some(states[4]);
  }

  /** After that run the writer's turn ends on the -1 path: the write end is open and 512 bytes are there, and the
      reader sleeps on. */
  lemma KilledWriter()
    ensures var s := KilledStates()[4];
      Inv(s) && ReadersOk(s) && Step(s, Run(1)).Some? && LeavesUnannounced(s, Run(1))
    ensures var s' := Step(KilledStates()[4], Run(1)).value;
      IsAsleep(s'.pc[0], false) && |s'.stored| == PIPESIZE && !Empty(s'.pipe) && s'.pipe.writeopen
  {
    var s := KilledStates()[4];
    KilledRun();
    RunInv(KilledStates(), KilledEvents(), 4);
    StepInv(s, Run(1));
    FillRing(s.pipe, [], 0, Long());
    var s' := Step(s, Run(1)).value;
    RingTests(s'.pipe, s'.stored, 0);
    assert IsAsleep(s.pc[0], false);
  }
}
