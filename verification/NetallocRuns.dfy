/** Whole-run behaviour of a lease pool: what every sequence of Allocate and Release calls keeps. */
module NetallocRuns {
  import opened Basics
  import opened Counting
  import opened Netalloc

  // ---- The sweep ----

  /** From any cursor position the 253 probes meet every octet of .2-.254, each exactly once. */
  lemma {:induction false} SweepVisitsEachOctetOnce(next: int, octet: int)
    requires 2 <= next <= 254 && 2 <= octet <= 254
    ensures exists i: nat :: i < HOSTS && CursorAt(next, i) == octet
    ensures forall i: nat, j: nat | i < HOSTS && j < HOSTS && CursorAt(next, i) == CursorAt(next, j) :: i == j
  {
    var i: nat := if octet >= next then octet - next else octet - next + HOSTS;
    assert CursorAt(next, i) == octet;
  }

  /** The wrapping cursor counts modulo 253, and a full sweep brings it back to its start. */
  lemma {:induction false} CursorIsModular(next: int, i: nat)
    requires 2 <= next <= 254 && i <= HOSTS
    ensures CursorAt(next, i) == 2 + (next - 2 + i) % HOSTS
    ensures CursorAt(next, HOSTS) == next
  {
  }

  // ---- The invariant ----

  ghost predicate NoDuplicates<T>(s: seq<T>) {
    forall i, j | 0 <= i < j < |s| :: s[i] != s[j]
  }

  function Elements<T>(s: seq<T>): set<T> {
    set x | x in s
  }

  /** Whether a is one of the n addresses .2, .3, ... of the block. */
  predicate IsHost(base: Prefix, n: nat, a: Addr) {
    a == base.addr.(d := a.d) && 2 <= a.d < 2 + n
  }

  function FirstHosts(base: Prefix, n: nat): set<Addr> {
    set o | 2 <= o < 2 + n :: base.addr.(d := o)
  }

  /** How many addresses the pool has ever handed out, counted by what it still knows of. */
  function Extent(p: Pool): nat {
    |p.held| + |p.free|
  }

  ghost predicate Sound(p: Pool) {
    && NoDuplicates(p.free)
    && (forall a | a in p.free :: a !in p.held)
    && Extent(p) <= HOSTS
    && (forall a :: a in p.held || a in p.free <==> IsHost(p.base, Extent(p), a))
    && p.next == CursorAt(2, Extent(p))
  }

  /** In a sound pool with an empty free list the sweep ends at its first probe, or the pool is full. */
  lemma {:induction false} SearchInSoundPool(p: Pool)
    requires Sound(p) && p.free == []
    ensures |p.held| < HOSTS ==> Search(p, 0) == 0 && Probe(p, 0) == p.base.addr.(d := 2 + |p.held|)
    ensures |p.held| == HOSTS ==> Search(p, 0) == HOSTS
  {
    assert forall a :: a in p.held <==> IsHost(p.base, |p.held|, a);
    if |p.held| < HOSTS {
      assert Probe(p, 0) == p.base.addr.(d := 2 + |p.held|);
    } else {
      forall i: nat | i < HOSTS ensures Probe(p, i) in p.held {
        assert IsHost(p.base, HOSTS, Probe(p, i));
      }
      SearchIsFirst(p, HOSTS);
    }
  }

  lemma {:induction false} NewPoolSound(base: Prefix)
    ensures Sound(NewPool(base))
  {
  }

  /** Allocate keeps the invariant, and takes fresh territory only when nothing has been released. */
  lemma {:induction false} AllocateSound(p: Pool, owner: string)
    requires Sound(p)
    ensures Sound(Allocated(p, owner).0) && Allocated(p, owner).0.base == p.base
    ensures Extent(Allocated(p, owner).0)
         == if p.free == [] && |p.held| < HOSTS then Extent(p) + 1 else Extent(p)
    ensures Allocated(p, owner).1.Some? ==>
              && Allocated(p, owner).1.value.addr !in p.held
              && Allocated(p, owner).0.held == p.held[Allocated(p, owner).1.value.addr := owner]
  {
    if p.free != [] {
      PopSound(p, owner);
    } else {
      FreshSound(p, owner);
    }
  }

  lemma {:induction false} PopSound(p: Pool, owner: string)
    requires Sound(p) && p.free != []
    ensures Sound(Allocated(p, owner).0) && Extent(Allocated(p, owner).0) == Extent(p)
    ensures p.free[|p.free| - 1] !in p.held
  {
    var q := Allocated(p, owner).0;
    var a := p.free[|p.free| - 1];
    assert p.free == q.free + [a];
    assert q.held.Keys == p.held.Keys + {a};
    assert Extent(q) == Extent(p);
    forall x ensures x in q.held || x in q.free <==> IsHost(q.base, Extent(q), x) {
      assert x in q.held || x in q.free <==> x in p.held || x in p.free;
    }
  }

  lemma {:induction false} FreshSound(p: Pool, owner: string)
    requires Sound(p) && p.free == []
    ensures Sound(Allocated(p, owner).0)
    ensures |p.held| == HOSTS ==> Allocated(p, owner) == (p, None)
    ensures |p.held| < HOSTS ==>
              && p.base.addr.(d := 2 + |p.held|) !in p.held
              && Allocated(p, owner).1 == Some(Prefix(p.base.addr.(d := 2 + |p.held|), p.base.bits))
              && Allocated(p, owner).0.held == p.held[p.base.addr.(d := 2 + |p.held|) := owner]
              && Extent(Allocated(p, owner).0) == Extent(p) + 1
  {
    SearchInSoundPool(p);
    if |p.held| < HOSTS {
      var q := Allocated(p, owner).0;
      var a := p.base.addr.(d := 2 + |p.held|);
      assert !IsHost(p.base, Extent(p), a);
      assert q.held.Keys == p.held.Keys + {a};
      forall x ensures x in q.held || x in q.free <==> IsHost(q.base, Extent(q), x) {
        assert IsHost(q.base, Extent(q), x) <==> IsHost(p.base, Extent(p), x) || x == a;
      }
    }
  }

  lemma {:induction false} ReleaseSound(p: Pool, lease: Prefix, owner: string)
    requires Sound(p)
    ensures Sound(Released(p, lease, owner).0) && Released(p, lease, owner).0.base == p.base
    ensures Extent(Released(p, lease, owner).0) == Extent(p)
  {
  }

  lemma {:induction false} SoundHosts(p: Pool)
    requires Sound(p)
    ensures p.held.Keys + Elements(p.free) == FirstHosts(p.base, Extent(p))
  {
  }

  lemma {:induction false} FirstHostsSize(base: Prefix, n: nat)
    ensures |FirstHosts(base, n)| == n
  {
    if n > 0 {
      FirstHostsSize(base, n - 1);
      assert FirstHosts(base, n) == FirstHosts(base, n - 1) + {base.addr.(d := 1 + n)};
    }
  }

  /** Allocate fails exactly when all 253 addresses are held, and a failure changes nothing. */
  lemma {:induction false} ExhaustedExactlyWhenFull(p: Pool, owner: string)
    requires Sound(p)
    ensures Allocated(p, owner).1.None? <==> |p.held| == HOSTS
    ensures Allocated(p, owner).1.None? <==> FirstHosts(p.base, HOSTS) <= p.held.Keys
    ensures Allocated(p, owner).1.None? ==> Allocated(p, owner).0 == p
  {
    FirstHostsSize(p.base, HOSTS);
    if FirstHosts(p.base, HOSTS) <= p.held.Keys {
      SubsetSize(FirstHosts(p.base, HOSTS), p.held.Keys);
    }
    if p.free == [] {
      FreshSound(p, owner);
      if |p.held| == HOSTS { SoundHosts(p); }
    }
  }

  // ---- Runs ----

  datatype Op = Alloc(owner: string) | Free(lease: Prefix, owner: string)

  datatype Answer = Leased(lease: Option<Prefix>) | Freed(ok: bool)

  function Step(p: Pool, op: Op): (Pool, Answer) {
    match op
    case Alloc(owner) => var (q, lease) := Allocated(p, owner); (q, Leased(lease))
    case Free(lease, owner) => var (q, ok) := Released(p, lease, owner); (q, Freed(ok))
  }

  /** The pool after a run of a new allocator. */
  function After(base: Prefix, ops: seq<Op>): Pool {
    if ops == [] then NewPool(base)
    else Step(After(base, ops[..|ops| - 1]), ops[|ops| - 1]).0
  }

  function Answers(base: Prefix, ops: seq<Op>): seq<Answer> {
    if ops == [] then []
    else
      var before := ops[..|ops| - 1];
      Answers(base, before) + [Step(After(base, before), ops[|ops| - 1]).1]
  }

  /** The largest InUse reported at any moment of the run. */
  function PeakUse(base: Prefix, ops: seq<Op>): nat {
    var now := |After(base, ops).held|;
    if ops == [] then now else Max(PeakUse(base, ops[..|ops| - 1]), now)
  }

  lemma {:induction false} StepSound(p: Pool, op: Op)
    requires Sound(p)
    ensures Sound(Step(p, op).0) && Step(p, op).0.base == p.base
    ensures Extent(Step(p, op).0) == Max(Extent(p), |Step(p, op).0.held|)
  {
    match op
    case Alloc(owner) =>
      AllocateSound(p, owner);
      if p.free == [] { FreshSound(p, owner); }
    case Free(lease, owner) =>
      ReleaseSound(p, lease, owner);
  }

  lemma {:induction false} RunSound(base: Prefix, ops: seq<Op>)
    ensures Sound(After(base, ops)) && After(base, ops).base == base
    ensures Extent(After(base, ops)) == PeakUse(base, ops)
  {
    if ops == [] {
      NewPoolSound(base);
    } else {
      RunSound(base, ops[..|ops| - 1]);
      StepSound(After(base, ops[..|ops| - 1]), ops[|ops| - 1]);
    }
  }

  /** In every run, held and free addresses together are the first PeakUse hosts of the block, no
      address is in both or twice in the free list, and the cursor is PeakUse places past .2. */
  lemma {:induction false} RunInvariant(base: Prefix, ops: seq<Op>)
    ensures var p := After(base, ops); var n := PeakUse(base, ops);
            && |p.held| + |p.free| == n
            && NoDuplicates(p.free)
            && p.held.Keys !! Elements(p.free)
            && p.held.Keys + Elements(p.free) == FirstHosts(base, n)
            && p.next == 2 + n % HOSTS
  {
    RunSound(base, ops);
    SoundHosts(After(base, ops));
    CursorIsModular(2, PeakUse(base, ops));
  }

  // ---- A stack and a counter ----

  /** The reference allocator: no cursor, no sweep, only a stack of released addresses and a counter. */
  datatype Stack = Stack(base: Prefix, held: map<Addr, string>, released: seq<Addr>, used: nat)

  function StackStep(s: Stack, op: Op): (Stack, Answer) {
    match op
    case Alloc(owner) =>
      if s.released != [] then
        var top := s.released[|s.released| - 1];
        (s.(held := s.held[top := owner], released := s.released[..|s.released| - 1]),
         Leased(Some(Prefix(top, s.base.bits))))
      else if s.used < HOSTS then
        var unused := Host(s.base, 2 + s.used);
        (s.(held := s.held[unused := owner], used := s.used + 1), Leased(Some(Prefix(unused, s.base.bits))))
      else (s, Leased(None))
    case Free(lease, owner) =>
      if lease.addr in s.held && s.held[lease.addr] == owner then
        (s.(held := s.held - {lease.addr}, released := s.released + [lease.addr]), Freed(true))
      else (s, Freed(false))
  }

  function StackAfter(base: Prefix, ops: seq<Op>): Stack {
    if ops == [] then Stack(base, map[], [], 0)
    else StackStep(StackAfter(base, ops[..|ops| - 1]), ops[|ops| - 1]).0
  }

  function StackAnswers(base: Prefix, ops: seq<Op>): seq<Answer> {
    if ops == [] then []
    else
      var before := ops[..|ops| - 1];
      StackAnswers(base, before) + [StackStep(StackAfter(base, before), ops[|ops| - 1]).1]
  }

  function Abstraction(p: Pool): Stack {
    Stack(p.base, p.held, p.free, Extent(p))
  }

  lemma {:induction false} StepRefinesStack(p: Pool, op: Op)
    requires Sound(p)
    ensures StackStep(Abstraction(p), op) == (Abstraction(Step(p, op).0), Step(p, op).1)
  {
    match op
    case Alloc(owner) =>
      AllocateSound(p, owner);
      if p.free == [] { FreshSound(p, owner); }
    case Free(lease, owner) =>
      ReleaseSound(p, lease, owner);
  }

  /** The code answers every run exactly as the stack-and-counter allocator does. */
  lemma {:induction false} RunRefinesStack(base: Prefix, ops: seq<Op>)
    ensures StackAfter(base, ops) == Abstraction(After(base, ops))
    ensures StackAnswers(base, ops) == Answers(base, ops)
  {
    if ops != [] {
      var before := ops[..|ops| - 1];
      RunRefinesStack(base, before);
      RunSound(base, before);
      StepRefinesStack(After(base, before), ops[|ops| - 1]);
    }
  }

  // ---- Last released, first reused ----

  datatype Lease = Lease(prefix: Prefix, owner: string)

  /** Releases the leases in order. */
  function ReleaseAll(p: Pool, leases: seq<Lease>): Pool
    decreases |leases|
  {
    if leases == [] then p
    else ReleaseAll(Released(p, leases[0].prefix, leases[0].owner).0, leases[1..])
  }

  ghost predicate AllReleasesSucceed(p: Pool, leases: seq<Lease>)
    decreases |leases|
  {
    leases == [] ||
    var (q, ok) := Released(p, leases[0].prefix, leases[0].owner);
    ok && AllReleasesSucceed(q, leases[1..])
  }

  /** Allocates once for each owner in order. */
  function AllocateAll(p: Pool, owners: seq<string>): (Pool, seq<Option<Prefix>>)
    decreases |owners|
  {
    if owners == [] then (p, [])
    else
      var (q, lease) := Allocated(p, owners[0]);
      var (r, leases) := AllocateAll(q, owners[1..]);
      (r, [lease] + leases)
  }

  lemma {:induction false} ReleasesStack(p: Pool, leases: seq<Lease>)
    requires AllReleasesSucceed(p, leases)
    decreases |leases|
    ensures ReleaseAll(p, leases).free == p.free + seq(|leases|, i requires 0 <= i < |leases| => leases[i].prefix.addr)
    ensures ReleaseAll(p, leases).base == p.base && ReleaseAll(p, leases).next == p.next
  {
    if leases != [] {
      ReleasesStack(Released(p, leases[0].prefix, leases[0].owner).0, leases[1..]);
    }
  }

  lemma {:induction false} AllocationsPop(p: Pool, owners: seq<string>)
    requires |owners| <= |p.free|
    decreases |owners|
    ensures AllocateAll(p, owners).0.free == p.free[..|p.free| - |owners|]
    ensures AllocateAll(p, owners).0.next == p.next
    ensures |AllocateAll(p, owners).1| == |owners|
    ensures forall i | 0 <= i < |owners| ::
              AllocateAll(p, owners).1[i] == Some(Prefix(p.free[|p.free| - 1 - i], p.base.bits))
  {
    if owners != [] {
      AllocationsPop(Allocated(p, owners[0]).0, owners[1..]);
    }
  }

  /** k successful releases followed by k allocations hand the released addresses out in reverse
      order, and leave the free list and the cursor as they were. */
  lemma {:induction false} ReuseIsLastInFirstOut(p: Pool, leases: seq<Lease>, owners: seq<string>)
    requires AllReleasesSucceed(p, leases) && |owners| == |leases|
    ensures var (q, answers) := AllocateAll(ReleaseAll(p, leases), owners);
            && q.free == p.free && q.next == p.next
            && |answers| == |leases|
            && forall i | 0 <= i < |leases| ::
                 answers[i] == Some(Prefix(leases[|leases| - 1 - i].prefix.addr, p.base.bits))
  {
    ReleasesStack(p, leases);
    AllocationsPop(ReleaseAll(p, leases), owners);
  }
}
