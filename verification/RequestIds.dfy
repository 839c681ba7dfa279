/** The pool of 32-bit request ids (internal/wire/protocol.go): a free list over a counter that
    wraps from 2^32 - 1 to 1. */
module RequestIds {
  import opened Numbers

  const LIMIT := 0x1_0000_0000

  datatype Pool = Pool(free: seq<nat>, next: nat, inFlight: nat)

  function Allocated(p: Pool): nat {
    if p.free != [] then p.free[|p.free| - 1] else p.next
  }

  function OnAlloc(p: Pool): Pool {
    if p.free != [] then p.(free := p.free[..|p.free| - 1], inFlight := p.inFlight + 1)
    else p.(next := if (p.next + 1) % LIMIT == 0 then 1 else (p.next + 1) % LIMIT, inFlight := p.inFlight + 1)
  }

  function OnRelease(p: Pool, id: nat): Pool {
    p.(free := p.free + [id], inFlight := if p.inFlight > 0 then p.inFlight - 1 else 0)
  }

  datatype Op = Alloc | Release(id: nat)

  /** The pool with the ids its users hold, and the most they have held at once. */
  datatype State = State(pool: Pool, live: multiset<nat>, peak: nat)

  function Apply(s: State, op: Op): State {
    match op
    case Alloc =>
      var live := s.live + multiset{Allocated(s.pool)};
      State(OnAlloc(s.pool), live, Max(s.peak, |live|))
    case Release(id) => State(OnRelease(s.pool, id), s.live - multiset{id}, s.peak)
  }

  /** Users release only what they hold, and hold fewer than all 2^32 - 1 ids when they ask for one. */
  predicate Proper(s: State, op: Op) {
    match op
    case Alloc => |s.live| < LIMIT - 1
    case Release(id) => id in s.live
  }

  predicate ProperRun(s: State, ops: seq<Op>)
    decreases |ops|
  {
    ops != [] ==> Proper(s, ops[0]) && ProperRun(Apply(s, ops[0]), ops[1..])
  }

  function Run(s: State, ops: seq<Op>): State
    decreases |ops|
  {
    if ops == [] then s else Run(Apply(s, ops[0]), ops[1..])
  }

  /** NewRequestIDPool. */
  function NewPool(start: nat): Pool {
    Pool([], if start == 0 then 1 else start, 0)
  }

  function Init(start: nat): State {
    State(NewPool(start), multiset{}, 0)
  }

  predicate Id(id: nat) { 1 <= id < LIMIT }

  /** How many steps of the counter lead from the first id to this one; 2^32 - 1 is followed by 1. */
  function Steps(first: nat, id: nat): int {
    if id >= first then id - first else id - first + LIMIT - 1
  }

  /** The id that many steps on; after all of them it is the first again. */
  function After(first: nat, steps: nat): int {
    if first + steps < LIMIT then first + steps else first + steps - (LIMIT - 1)
  }

  /** Free and live ids are disjoint, without duplicates, and together exactly the ids that the
      counter has passed. */
  ghost predicate Partition(first: nat, s: State) {
    forall id: nat ::
      multiset(s.pool.free)[id] + s.live[id] == if Id(id) && Steps(first, id) < s.peak then 1 else 0
  }

  ghost predicate Inv(first: nat, s: State) {
    && Id(first) && Partition(first, s)
    && s.peak <= LIMIT - 1 && s.pool.next == After(first, s.peak)
    && |s.live| + |s.pool.free| == s.peak
    && s.pool.inFlight == |s.live|
  }

  /** The id handed out is not in use exactly as long as any id is not. */
  lemma AllocIsFreshIff(first: nat, s: State)
    requires Inv(first, s)
    ensures Allocated(s.pool) !in s.live <==> |s.live| < LIMIT - 1
  {
  }

  lemma AllocStep(first: nat, s: State)
    requires Inv(first, s) && Proper(s, Alloc)
    ensures Inv(first, Apply(s, Alloc))
  {
    var p, t := s.pool, Apply(s, Alloc);
    if p.free != [] {
      assert p.free == t.pool.free + [Allocated(p)];
    }
    AllocIsFreshIff(first, s);
  }

  lemma ReleaseStep(first: nat, s: State, id: nat)
    requires Inv(first, s) && id in s.live
    ensures Inv(first, Apply(s, Release(id)))
  {
    assert s.live == s.live - multiset{id} + multiset{id};
  }

  lemma {:induction false} Runs(first: nat, s: State, ops: seq<Op>)
    requires Inv(first, s) && ProperRun(s, ops)
    ensures Inv(first, Run(s, ops))
    decreases |ops|
  {
    if ops != [] {
      match ops[0] {
        case Alloc => AllocStep(first, s);
        case Release(id) => ReleaseStep(first, s, id);
      }
      Runs(first, Apply(s, ops[0]), ops[1..]);
    }
  }

  /** From any start and after any proper run, no two live ids coincide, up to all 2^32 - 1 of them;
      the ids ever handed out are the first peak of the counter's cycle, where peak is the most that
      were in flight, and the pool's own count is right. */
  lemma NoTwoLiveIdsCoincide(start: nat, ops: seq<Op>)
    requires start < LIMIT && ProperRun(Init(start), ops)
    ensures var first, s := Init(start).pool.next, Run(Init(start), ops);
            && Inv(first, s)
            && (forall id: nat :: s.live[id] <= 1)
            && (forall id: nat :: id in s.live ==> Id(id) && id !in s.pool.free)
            && (first + s.peak < LIMIT ==> forall id: nat :: id in s.live ==> first <= id < s.pool.next)
  {
    var first, s := Init(start).pool.next, Run(Init(start), ops);
    Runs(first, Init(start), ops);
    forall id: nat
      ensures s.live[id] <= 1 && (id in s.live ==> Id(id) && id !in s.pool.free)
      ensures id in s.live && first + s.peak < LIMIT ==> first <= id < s.pool.next
    {
      assert multiset(s.pool.free)[id] + s.live[id] == if Id(id) && Steps(first, id) < s.peak then 1 else 0;
      assert id in s.pool.free ==> multiset(s.pool.free)[id] > 0;
    }
  }

  lemma {:induction false} RunThen(s: State, ops: seq<Op>, op: Op)
    ensures Run(s, ops + [op]) == Apply(Run(s, ops), op)
    decreases |ops|
  {
    if ops == [] {
      assert (ops + [op])[1..] == [];
    } else {
      assert (ops + [op])[1..] == ops[1..] + [op];
      RunThen(Apply(s, ops[0]), ops[1..], op);
    }
  }

  function Allocs(n: nat): seq<Op> { seq(n, _ => Alloc) }

  lemma StartsSound(start: nat)
    requires start < LIMIT
    ensures Inv(Init(start).pool.next, Init(start))
  {
  }

  lemma AllocFills(first: nat, s: State)
    requires Inv(first, s) && s.pool.free == [] && |s.live| < LIMIT - 1
    ensures var t := Apply(s, Alloc); Inv(first, t) && t.pool.free == [] && |t.live| == |s.live| + 1
  {
    hide Partition;
    AllocStep(first, s);
  }

  /** Allocating without releasing hands out one id after the other, up to all of them. */
  lemma {:induction false} AllocatingFills(start: nat, n: nat)
    requires start < LIMIT && n <= LIMIT - 1
    ensures var s := Run(Init(start), Allocs(n));
            Inv(Init(start).pool.next, s) && s.pool.free == [] && |s.live| == n
    decreases n
  {
    hide Inv, Apply;
    if n == 0 {
      StartsSound(start);
    } else {
      AllocatingFills(start, n - 1);
      assert Allocs(n) == Allocs(n - 1) + [Alloc];
      RunThen(Init(start), Allocs(n - 1), Alloc);
      AllocFills(Init(start).pool.next, Run(Init(start), Allocs(n - 1)));
    }
  }

  /** The bound is needed, and 2^32 - 1 is where it lies for every start: after that many allocations
      all ids are live, and the next one hands out the first id again. */
  lemma WrapCollides(start: nat)
    requires start < LIMIT
    ensures var t := Run(Init(start), Allocs(LIMIT - 1));
            && |t.live| == LIMIT - 1 && (forall id: nat :: id in t.live <==> Id(id))
            && Allocated(t.pool) == Init(start).pool.next && Allocated(t.pool) in t.live
  {
    var first, t := Init(start).pool.next, Run(Init(start), Allocs(LIMIT - 1));
    AllocatingFills(start, LIMIT - 1);
    forall id: nat ensures id in t.live <==> Id(id) {
      assert multiset(t.pool.free)[id] + t.live[id] == if Id(id) && Steps(first, id) < t.peak then 1 else 0;
    }
  }

  /** So is the discipline: releasing an id that is not live makes two allocations equal. */
  lemma DoubleReleaseCollides(first: nat, s: State, id: nat) returns (n: nat)
    requires Inv(first, s) && id in s.pool.free
    ensures var t := Run(Apply(s, Release(id)), Allocs(n)); Allocated(t.pool) in t.live
  {
    var k :| 0 <= k < |s.pool.free| && s.pool.free[k] == id;
    n := |s.pool.free| - k;
    DrainTo(Apply(s, Release(id)), n, id);
  }

  /** Taking n ids off a free list whose last and n-th last ids are equal. */
  lemma {:induction false} DrainTo(r: State, n: nat, id: nat)
    requires 1 <= n < |r.pool.free| && r.pool.free[|r.pool.free| - 1 - n] == id
    requires r.pool.free[|r.pool.free| - 1] == id || id in r.live
    ensures Allocated(Run(r, Allocs(n)).pool) in Run(r, Allocs(n)).live
    decreases n
  {
    var t := Apply(r, Alloc);
    var ops := Allocs(n);
    assert ops[1..] == Allocs(n - 1);
    if n > 1 {
      DrainTo(t, n - 1, id);
    } else {
      assert ops[1..] == [] && Run(r, ops) == t;
    }
  }

  // ---------------------------------------------------------------- the program's own form

  class RequestIdPool {
    var free: seq<nat>
    var next: nat
    var inFlight: nat

    constructor (start: nat)
      ensures View() == NewPool(start)
    {
      free := [];
      next := if start == 0 then 1 else start;
      inFlight := 0;
    }

    function View(): Pool
      reads this
    {
      Pool(free, next, inFlight)
    }

    method AllocId() returns (id: nat)
      modifies this
      ensures id == Allocated(old(View())) && View() == OnAlloc(old(View()))
    {
      inFlight := inFlight + 1;
      var n := |free|;
      if n > 0 {
        id := free[n - 1];
        free := free[..n - 1];
        return;
      }
      id := next;
      next := (next + 1) % LIMIT;
      if next == 0 {
        next := 1;
      }
    }

    method ReleaseId(id: nat)
      modifies this
      ensures View() == OnRelease(old(View()), id)
    {
      if inFlight > 0 {
        inFlight := inFlight - 1;
      }
      free := free + [id];
    }
  }
}
