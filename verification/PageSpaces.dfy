/** Address spaces of processes: fork, clone, sbrk, exec and wait on page directories that threads share. */
module PageSpaces {
  import opened PagePool
  import opened PageOps
  import opened PageExec
  import opened PageRefs

  /** The page directory, size and kernel stack of a process slot; directory 0 marks an unused slot. */
  datatype Space = Space(dir: int, sz: nat, stack: int)

  /** Pages, reference counts of shared directories, and the process slots. */
  datatype Kern = Kern(vm: Vm, tab: seq<Ref>, procs: seq<Space>)

  /** What a system call of process `c` does to the address spaces; wait frees what the zombie in slot `z` had. */
  datatype Event = Fork(c: nat) | Clone(c: nat) | Sbrk(c: nat, n: int) | Exec(c: nat, segs: seq<nat>, check: Check)
    | Wait(z: nat)

  /** What exec finds in the file and the arguments once there is a new directory: nothing wrong, a bad segment after
      those that were loaded, or arguments that do not fit. */
  datatype Check = Passes | BadSegment | BadArguments

  /** The state after it, or the panic it ended in: "remap", or a page that copyuvm did not find. */
  datatype Result = Ran(k: Kern) | Remapped | Missing

  predicate Used(k: Kern, i: int) { 0 <= i < |k.procs| && k.procs[i].dir != 0 }

  function Dirs(procs: seq<Space>): seq<int> { seq(|procs|, i requires 0 <= i < |procs| => procs[i].dir) }

  /** The part that the reference counts are about. */
  function Refs(k: Kern): Sys { Sys(k.tab, Dirs(k.procs)) }

  /** allocproc's scan */
  function FreeSlot(procs: seq<Space>, i: nat): (r: nat)
    requires i <= |procs|
    ensures i <= r <= |procs| && (r < |procs| ==> procs[r].dir == 0)
    ensures forall j :: i <= j < r ==> procs[j].dir != 0
    decreases |procs| - i
  {
    if i == |procs| || procs[i].dir == 0 then i else FreeSlot(procs, i + 1)
  }

  /** allocproc finds a slot and a page for the kernel stack. */
  predicate HasSlot(k: Kern) { FreeSlot(k.procs, 0) < |k.procs| && k.vm.free != [] }

  /** fork by process `c` */
  function ForkIn(k: Kern, c: nat, kmap: seq<KPage>): Result
    requires Used(k, c)
  {
    if !HasSlot(k) then Ran(k)
    else
      var np, stack, p := FreeSlot(k.procs, 0), k.vm.free[0], k.procs[c];
      match Copy(Take(k.vm, Elsewhere), p.dir, p.sz, kmap)
      case Ret(w, d) =>
        if d == 0 then Ran(k.(vm := Give(w, stack)))
        else Ran(k.(vm := w, procs := k.procs[np := Space(d, p.sz, stack)]))
      case RemapPanic => Remapped
      case AbsentPanic => Missing
  }

  /** clone by process `c` */
  function CloneIn(k: Kern, c: nat): Kern
    requires Used(k, c)
  {
    if !HasSlot(k) then k
    else
      var np, p := FreeSlot(k.procs, 0), k.procs[c];
      Kern(Take(k.vm, Elsewhere), Shared(k.tab, p.dir), k.procs[np := Space(p.dir, p.sz, k.vm.free[0])])
  }

  /** growproc: the size is set unless allocuvm or deallocuvm returned 0. */
  function Resized(k: Kern, c: nat, w: Vm, r: int): Kern
    requires Used(k, c)
  {
    k.(vm := w, procs := if r <= 0 then k.procs else k.procs[c := k.procs[c].(sz := r)])
  }

  function Regrown(k: Kern, c: nat, o: Outcome): Result
    requires Used(k, c)
  {
    match o
    case Ret(w, r) => Ran(Resized(k, c, w, r))
    case RemapPanic => Remapped
    case AbsentPanic => Missing
  }

  /** A shrunk size, in unsigned 32-bit arithmetic */
  function Less(sz: nat, n: int): nat { (sz + n) % 0x1_0000_0000 }

  function SbrkIn(k: Kern, c: nat, n: int): Result
    requires Used(k, c)
  {
    var p := k.procs[c];
    if n > 0 then Regrown(k, c, Alloc(k.vm, p.dir, p.sz, p.sz + n))
    else if n < 0 then Ran(Shrunk(k, c, Less(p.sz, n)))
    else Ran(k)
  }

  function Shrunk(k: Kern, c: nat, newsz: nat): Kern
    requires Used(k, c)
  {
    var p := k.procs[c];
    Resized(k, c, Dealloc(k.vm, p.dir, p.sz, newsz), if newsz >= p.sz then p.sz else newsz)
  }

  /** exec's new image in directory `d`, or -1 */
  function NewImage(v: Vm, d: int, segs: seq<nat>, check: Check): Outcome {
    match check
    case Passes => Image(v, d, segs)
    case BadSegment => Fails(Load(v, d, 0, segs))
    case BadArguments => Fails(Image(v, d, segs))
  }

  function Fails(o: Outcome): Outcome { if o.Ret? then Ret(o.v, -1) else o }

  /** exec by process `c`, of a file with segments that end at `segs`: freevm of the new directory on failure, of the
      old one on success */
  function ExecIn(k: Kern, c: nat, segs: seq<nat>, check: Check, kmap: seq<KPage>): Result
    requires Used(k, c)
  {
    var (v, d) := Setup(k.vm, kmap);
    if d == 0 then Ran(k.(vm := v))
    else
      match NewImage(v, d, segs, check)
      case Ret(w, r) => Ran(if r < 0 then k.(vm := FreeDir(w, d)) else Replaced(k, c, w, d, r))
      case RemapPanic => Remapped
      case AbsentPanic => Missing
  }

  /** Process `c` goes over to directory `d`. */
  function Replaced(k: Kern, c: nat, w: Vm, d: int, sz: nat): Kern
    requires Used(k, c)
  {
    var p, (tab, last) := k.procs[c], Dropped(k.tab, k.procs[c].dir);
    Kern(if last then FreeDir(w, p.dir) else w, tab, k.procs[c := Space(d, sz, p.stack)])
  }

  /** wait's kfree of the kernel stack and freevm for the zombie in slot `z` */
  function WaitIn(k: Kern, z: nat): Kern
    requires Used(k, z)
  {
    var p := k.procs[z];
    var v, (tab, last) := Give(k.vm, p.stack), Dropped(k.tab, p.dir);
    Kern(if last then FreeDir(v, p.dir) else v, tab, k.procs[z := Space(0, 0, 0)])
  }

  /** One system call; a call of a process that does not exist does nothing. */
  function Step(k: Kern, e: Event, kmap: seq<KPage>): Result {
    match e
    case Fork(c) => if Used(k, c) then ForkIn(k, c, kmap) else Ran(k)
    case Clone(c) => if Used(k, c) then Ran(CloneIn(k, c)) else Ran(k)
    case Sbrk(c, n) => if Used(k, c) then SbrkIn(k, c, n) else Ran(k)
    case Exec(c, segs, check) => if Used(k, c) then ExecIn(k, c, segs, check, kmap) else Ran(k)
    case Wait(z) => if Used(k, z) then Ran(WaitIn(k, z)) else Ran(k)
  }

  /** A run of system calls, up to a panic if there is one. */
  function Run(k: Kern, es: seq<Event>, kmap: seq<KPage>): Result
    decreases |es|
  {
    if es == [] then Ran(k)
    else
      match Step(k, es[0], kmap)
      case Ran(k1) => Run(k1, es[1..], kmap)
      case Remapped => Remapped
      case Missing => Missing
  }

  // ---- What every call keeps ----

  ghost predicate SlotOk(k: Kern, i: nat)
    requires i < |k.procs|
  {
    k.procs[i].dir in k.vm.dirs && k.procs[i].sz < KERNBASE && Owns(k.vm, k.procs[i].stack, Elsewhere)
  }

  predicate HasDir(k: Kern, d: int) { exists i :: 0 <= i < |k.procs| && k.procs[i].dir == d }

  ghost predicate HasStack(k: Kern, p: int) { exists i :: Used(k, i) && k.procs[i].stack == p }

  /** Processes and pages agree: the directories in use are those of the processes, and the pages that are neither free
      nor part of a directory are the kernel stacks, one for each process. */
  ghost predicate Matched(k: Kern) { SlotsOk(k) && DirsUsed(k) && StacksApart(k) && StacksUsed(k) }

  ghost predicate SlotsOk(k: Kern) { forall i: nat :: Used(k, i) ==> SlotOk(k, i) }

  ghost predicate DirsUsed(k: Kern) { forall d :: d in k.vm.dirs ==> HasDir(k, d) }

  ghost predicate StacksApart(k: Kern) {
    forall i, j :: Used(k, i) && Used(k, j) && i != j ==> k.procs[i].stack != k.procs[j].stack
  }

  ghost predicate StacksUsed(k: Kern) { forall p :: Owns(k.vm, p, Elsewhere) ==> HasStack(k, p) }

  ghost predicate KernOk(k: Kern) {
    PagePool.Inv(k.vm) && Hands(k.vm) == {} && 0 !in Pages(k.vm) && PageRefs.Inv(Refs(k)) && Matched(k)
  }
}
