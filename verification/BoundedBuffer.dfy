/** The bounded buffer of sync_utils.c, any number of producers and consumers and any interleaving. */
module BoundedBuffer {
  import opened Helpers

  /** Where a thread is: outside; before, between and after the mutex in bb_put; the same in bb_take. */
  datatype Pc = Idle
    | WaitEmpty(tray: int) | Storing(tray: int) | PostFull
    | WaitFull | Fetching | PostEmpty(got: int)

  /** The queue, its semaphores, the threads, and the trays put and taken so far in mutex order. */
  datatype Sys = Sys(buf: seq<int>, head: nat, tail: nat, empty: nat, full: nat, pc: seq<Pc>,
                     put: seq<int>, taken: seq<int>)

  function Cap(s: Sys): nat { |s.buf| }

  // ---- The critical sections ----

  /** The mutex region of bb_put: the buffer and the tail after storing a tray. */
  function Stored(buf: seq<int>, tail: nat, tray: int): (seq<int>, nat)
    requires tail < |buf|
  {
    (buf[tail := tray], (tail + 1) % |buf|)
  }

  /** The mutex region of bb_take: the tray and the head after fetching it. */
  function Fetched(buf: seq<int>, head: nat): (int, nat)
    requires head < |buf|
  {
    (buf[head], (head + 1) % |buf|)
  }

  class Queue {
    var buf: array<int>
    var head: nat
    var tail: nat

    ghost predicate Valid()
      reads this
    {
      0 < buf.Length && head < buf.Length && tail < buf.Length
    }

    /** bb_init with a positive capacity */
    constructor (capacity: nat)
      requires capacity > 0
      ensures Valid() && fresh(buf) && buf.Length == capacity && head == 0 && tail == 0
    {
      buf := new int[capacity](_ => 0);
      head, tail := 0, 0;
    }

    /** The mutex region of bb_put */
    method Store(tray: int)
      requires Valid()
      modifies this, buf
      ensures Valid() && buf == old(buf) && head == old(head)
      ensures (buf[..], tail) == Stored(old(buf[..]), old(tail), tray)
    {
      buf[tail] := tray;
      tail := (tail + 1) % buf.Length;
    }

    /** The mutex region of bb_take */
    method Fetch() returns (tray: int)
      requires Valid()
      modifies this`head
      ensures Valid()
      ensures (tray, head) == Fetched(buf[..], old(head))
    {
      tray := buf[head];
      head := (head + 1) % buf.Length;
    }
  }

  // ---- Interleavings ----

  predicate Fits(s: Sys) { 0 < |s.buf| && s.head < |s.buf| && s.tail < |s.buf| }

  /** Thread `i` takes a step. */
  ghost predicate Step(s: Sys, i: int, s': Sys) {
    Fits(s) && 0 <= i < |s.pc| &&
    match s.pc[i]
    case Idle => s' == s.(pc := s.pc[i := WaitFull]) || exists tray :: s' == s.(pc := s.pc[i := WaitEmpty(tray)])
    case WaitEmpty(t) => s.empty > 0 && s' == s.(empty := s.empty - 1, pc := s.pc[i := Storing(t)])
    case Storing(t) =>
      var (buf, tail) := Stored(s.buf, s.tail, t);
      s' == s.(buf := buf, tail := tail, pc := s.pc[i := PostFull], put := s.put + [t])
    case PostFull => s' == s.(full := s.full + 1, pc := s.pc[i := Idle])
    case WaitFull => s.full > 0 && s' == s.(full := s.full - 1, pc := s.pc[i := Fetching])
    case Fetching =>
      var (tray, head) := Fetched(s.buf, s.head);
      s' == s.(head := head, pc := s.pc[i := PostEmpty(tray)], taken := s.taken + [tray])
    case PostEmpty(_) => s' == s.(empty := s.empty + 1, pc := s.pc[i := Idle])
  }

  predicate Initial(s: Sys) {
    && |s.buf| > 0 && s.head == 0 && s.tail == 0 && s.empty == |s.buf| && s.full == 0 && s.put == [] && s.taken == []
    && forall i :: 0 <= i < |s.pc| ==> s.pc[i] == Idle
  }

  ghost predicate IsRun(states: seq<Sys>, who: seq<int>) {
    |states| == |who| + 1 && forall k :: 0 <= k < |who| ==> Step(states[k], who[k], states[k + 1])
  }

  // ---- Counting threads in flight ----

  datatype Kind = KStoring | KPostFull | KFetching | KPostEmpty

  predicate Is(p: Pc, k: Kind) {
    match k
    case KStoring => p.Storing?
    case KPostFull => p.PostFull?
    case KFetching => p.Fetching?
    case KPostEmpty => p.PostEmpty?
  }

  function Count(pc: seq<Pc>, k: Kind, n: nat): nat
    requires n <= |pc|
  {
    if n == 0 then 0 else Count(pc, k, n - 1) + if Is(pc[n - 1], k) then 1 else 0
  }

  function All(s: Sys, k: Kind): nat { Count(s.pc, k, |s.pc|) }

  lemma {:induction false} CountSet(pc: seq<Pc>, i: int, v: Pc, k: Kind, n: nat)
    requires 0 <= i < |pc| && n <= |pc|
    ensures Count(pc[i := v], k, n) ==
      Count(pc, k, n) + (if i < n && Is(v, k) then 1 else 0) - (if i < n && Is(pc[i], k) then 1 else 0)
  {
    if n > 0 { CountSet(pc, i, v, k, n - 1); }
  }

  lemma {:induction false} CountAny(pc: seq<Pc>, i: int, k: Kind, n: nat)
    requires 0 <= i < n <= |pc| && Is(pc[i], k)
    ensures Count(pc, k, n) > 0
  {
    if i < n - 1 { CountAny(pc, i, k, n - 1); }
  }

  lemma {:induction false} CountIdle(pc: seq<Pc>, k: Kind, n: nat)
    requires n <= |pc| && forall i :: 0 <= i < |pc| ==> pc[i] == Idle
    ensures Count(pc, k, n) == 0
  {
    if n > 0 { CountIdle(pc, k, n - 1); }
  }

  // ---- What every step keeps ----

  function Held(s: Sys): int { |s.put| - |s.taken| }

  /** Each semaphore count, with the threads between a wait and the matching post, accounts for the slots. */
  predicate Accounts(s: Sys) {
    && s.empty + All(s, KStoring) + Held(s) + All(s, KPostEmpty) == Cap(s)
    && s.full + All(s, KPostFull) + All(s, KFetching) == Held(s)
  }

  /** The indices follow the counters, and the slots between them hold the trays not yet taken. */
  predicate Ring(s: Sys) {
    && Fits(s) && 0 <= Held(s) <= Cap(s)
    && s.head == |s.taken| % Cap(s) && s.tail == |s.put| % Cap(s)
    && (forall k :: |s.taken| <= k < |s.put| ==> SlotOf(s, k) == s.put[k])
  }

  function SlotOf(s: Sys, k: int): int
    requires Fits(s)
  {
    s.buf[k % |s.buf|]
  }

  predicate Inv(s: Sys) {
    Accounts(s) && Ring(s) && s.taken <= s.put
  }

  lemma ModNext(a: nat, cap: nat)
    requires cap > 0
    ensures (a % cap + 1) % cap == (a + 1) % cap
  {
    var q, r := a / cap, a % cap;
    if r + 1 < cap {
      Divides(a + 1, cap, q, r + 1);
    } else {
      Divides(a + 1, cap, q + 1, 0);
    }
  }

  /** Quotient and remainder are unique. */
  lemma Divides(a: int, cap: int, q: int, r: int)
    requires cap > 0 && a == cap * q + r && 0 <= r < cap
    ensures a % cap == r
  {
    var d := q - a / cap;
    assert cap * d == a % cap - r;
    Scaled(cap, d);
  }

  /** Fewer than `cap` counters in a row use different slots. */
  lemma ModDistinct(a: int, b: int, cap: int)
    requires cap > 0 && a < b < a + cap
    ensures a % cap != b % cap
  {
    var d := b / cap - a / cap;
    assert cap * d == (b - a) - (b % cap - a % cap);
    Scaled(cap, d);
  }

  lemma InitialInv(s: Sys)
    requires Initial(s)
    ensures Inv(s)
  {
    CountIdle(s.pc, KStoring, |s.pc|);
    CountIdle(s.pc, KPostFull, |s.pc|);
    CountIdle(s.pc, KFetching, |s.pc|);
    CountIdle(s.pc, KPostEmpty, |s.pc|);
  }

  lemma StepAccounts(s: Sys, i: int, s': Sys)
    requires Accounts(s) && Step(s, i, s')
    ensures Accounts(s')
    ensures s.pc[i].Storing? ==> Held(s) < Cap(s)
    ensures s.pc[i].Fetching? ==> Held(s) > 0
  {
    var v := s'.pc[i];
    assert s'.pc == s.pc[i := v];
    CountSet(s.pc, i, v, KStoring, |s.pc|);
    CountSet(s.pc, i, v, KPostFull, |s.pc|);
    CountSet(s.pc, i, v, KFetching, |s.pc|);
    CountSet(s.pc, i, v, KPostEmpty, |s.pc|);
    if s.pc[i].Storing? { CountAny(s.pc, i, KStoring, |s.pc|); }
    if s.pc[i].Fetching? { CountAny(s.pc, i, KFetching, |s.pc|); }
  }

  lemma StoreRing(s: Sys, i: int, s': Sys)
    requires Ring(s) && Step(s, i, s') && s.pc[i].Storing? && Held(s) < Cap(s)
    ensures Ring(s')
  {
    ModNext(|s.put|, Cap(s));
    forall k | |s'.taken| <= k < |s'.put| ensures SlotOf(s', k) == s'.put[k] {
      if k < |s.put| {
        ModDistinct(k, |s.put|, Cap(s));
        assert SlotOf(s, k) == s.put[k];
      }
    }
  }

  lemma FetchRing(s: Sys, i: int, s': Sys)
    requires Ring(s) && Step(s, i, s') && s.pc[i].Fetching? && Held(s) > 0
    ensures Ring(s') && s'.taken == s.taken + [s.put[|s.taken|]]
  {
    ModNext(|s.taken|, Cap(s));
    assert SlotOf(s, |s.taken|) == s.put[|s.taken|];
    forall k | |s'.taken| <= k < |s'.put| ensures SlotOf(s', k) == s'.put[k] {
      assert SlotOf(s, k) == s.put[k];
    }
  }

  lemma StepInv(s: Sys, i: int, s': Sys)
    requires Inv(s) && Step(s, i, s')
    ensures Inv(s')
  {
    StepAccounts(s, i, s');
    if s.pc[i].Storing? {
      StoreRing(s, i, s');
    } else if s.pc[i].Fetching? {
      FetchRing(s, i, s');
    } else {
      forall k | |s'.taken| <= k < |s'.put| ensures SlotOf(s', k) == s'.put[k] {
        assert SlotOf(s, k) == s.put[k];
      }
    }
  }

  /** In every state of every run the trays taken are a prefix of the trays put, and the counts add up. */
  lemma {:induction false} RunInv(states: seq<Sys>, who: seq<int>, k: nat)
    requires IsRun(states, who) && Initial(states[0]) && k <= |who|
    ensures Inv(states[k])
  {
    if k == 0 { InitialInv(states[0]); } else {
      RunInv(states, who, k - 1);
      StepInv(states[k - 1], who[k - 1], states[k]);
    }
  }

  /** A store never hits a slot that holds a tray not yet taken. */
  lemma NoOverwrite(states: seq<Sys>, who: seq<int>, k: nat, n: int)
    requires IsRun(states, who) && Initial(states[0]) && k < |who|
    requires Step(states[k], who[k], states[k + 1]) && states[k].pc[who[k]].Storing?
    requires |states[k].taken| <= n < |states[k].put|
    ensures Fits(states[k]) && n % Cap(states[k]) != states[k].tail
  {
    RunInv(states, who, k);
    var s := states[k];
    StepAccounts(s, who[k], states[k + 1]);
    ModDistinct(n, |s.put|, Cap(s));
  }

  /** With nobody between a wait and its post, a blocked producer means a full buffer and a blocked consumer an
      empty one. */
  lemma BlockedMeans(states: seq<Sys>, who: seq<int>, k: nat)
    requires IsRun(states, who) && Initial(states[0]) && k <= |who|
    requires var s := states[k];
      All(s, KStoring) == 0 && All(s, KPostFull) == 0 && All(s, KFetching) == 0 && All(s, KPostEmpty) == 0
    ensures var s := states[k]; (s.empty == 0 <==> Held(s) == Cap(s)) && (s.full == 0 <==> Held(s) == 0)
  {
    RunInv(states, who, k);
  }
}
