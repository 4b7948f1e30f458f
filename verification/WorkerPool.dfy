/** `worker_pool.c` on the heap: one ring per worker and a wrapping round-robin counter. As in
    `SpscRing` the contract is that of an uninterrupted call; `Pool` covers interleavings. */
module WorkerPool {
  import opened Words
  import opened Ring
  import opened Pool
  import opened SpscRing

  ghost function Slots(rings: seq<SpscRing>): set<object>
  {
    set i | 0 <= i < |rings| :: rings[i].slots
  }

  /** No two workers share a ring or its slots. */
  ghost predicate Apart(rings: seq<SpscRing>)
  {
    forall i, j :: 0 <= i < j < |rings| ==> rings[i] != rings[j] && rings[i].slots != rings[j].slots
  }

  class WorkerPool {
    const rings: seq<SpscRing>
    var nextWorker: Word

    /** Dispatch calls so far, without wrap-around. */
    ghost var calls: nat

    ghost predicate Valid()
      reads this, rings, Slots(rings)
    {
      && |rings| > 0 && Apart(rings) && nextWorker == Wrap(calls)
      && forall i :: 0 <= i < |rings| ==> rings[i].Valid() && rings[i].slots.Length == SPSC_CAPACITY
    }

    ghost function Queued(i: nat): seq<Ptr>
      requires Valid() && i < |rings|
      reads this, rings, Slots(rings)
    {
      rings[i].Contents()
    }

    /** `worker_pool_init` */
    constructor (numWorkers: nat)
      requires numWorkers > 0
      ensures Valid() && |rings| == numWorkers && calls == 0
      ensures forall i :: 0 <= i < numWorkers ==> Queued(i) == []
    {
      var rs: seq<SpscRing> := [];
      var i := 0;
      while i < numWorkers
        invariant 0 <= i <= numWorkers && |rs| == i && Apart(rs)
        invariant forall j :: 0 <= j < i ==>
          rs[j].Valid() && rs[j].slots.Length == SPSC_CAPACITY && rs[j].Contents() == []
      {
        var r := MakeRing();
        rs := rs + [r];
        i := i + 1;
      }
      rings := rs;
      nextWorker, calls := 0, 0;
    }

    /** `worker_pool_dispatch`: the call takes its turn even when it fails; on success exactly the
        ring of the worker whose turn it is grows, by the new item at its end. `alloc` is whether
        `malloc` succeeds; an item that was allocated and refused is freed. */
    method Dispatch(item: Ptr, alloc: bool) returns (ok: bool, freed: seq<Ptr>)
      requires Valid()
      modifies this, rings, Slots(rings)
      ensures Valid() && calls == old(calls) + 1
      ensures var i := Route(old(calls), |rings|);
        && (ok <==> alloc && |old(Queued(i))| < SPSC_CAPACITY)
        && freed == (if alloc && !ok then [item] else [])
        && Queued(i) == old(Queued(i)) + (if ok then [item] else [])
        && forall j :: 0 <= j < |rings| && j != i ==> Queued(j) == old(Queued(j))
    {
      var idx := nextWorker % |rings|;
      nextWorker := WordAdd(nextWorker, 1);
      Increment(calls);
      calls := calls + 1;
      freed := [];
      if !alloc { return false, freed; }
      ok := rings[idx].Push(item);
      if !ok { freed := [item]; }
    }
  }

  /** `worker_thread`, for as long as it finds its running flag set, `turns` times: it executes the
      oldest items of its ring, each once and in order, frees what it executed and leaves the rest. */
  method WorkerThread(ring: SpscRing, turns: nat) returns (executed: seq<Ptr>, freed: seq<Ptr>)
    requires ring.Valid() && NULL !in ring.Contents()
    modifies ring`tail, ring`pops
    ensures ring.Valid() && executed + ring.Contents() == old(ring.Contents()) && freed == executed
    ensures |executed| == if turns < |old(ring.Contents())| then turns else |old(ring.Contents())|
  {
    executed, freed := [], [];
    var t := 0;
    while t < turns
      invariant 0 <= t <= turns && ring.Valid()
      invariant executed + ring.Contents() == old(ring.Contents()) && freed == executed
      invariant |executed| == if t < |old(ring.Contents())| then t else |old(ring.Contents())|
    {
      ghost var before, q := executed, ring.Contents();
      var item := ring.Pop();
      if item != NULL {
        executed := executed + [item];
        freed := freed + [item];
      }
      if q != [] { OneMore(old(ring.Contents()), before, q); }
      t := t + 1;
    }
  }

  lemma OneMore(all: seq<Ptr>, done: seq<Ptr>, left: seq<Ptr>)
    requires done + left == all && NULL !in all && left != []
    ensures left[0] != NULL && done + [left[0]] + left[1..] == all
  {
    assert left[0] == all[|done|];
  }

  method MakeRing() returns (r: SpscRing)
    ensures fresh(r) && fresh(r.slots)
    ensures r.Valid() && r.slots.Length == SPSC_CAPACITY && r.Contents() == []
  {
    CapacityIsPower();
    var slots := new Ptr[SPSC_CAPACITY];
    r := new SpscRing(slots, SPSC_CAPACITY);
  }

  lemma CapacityIsPower()
    ensures And(SPSC_CAPACITY, SPSC_CAPACITY - 1) == 0
  {
    assert Pow2(10) == SPSC_CAPACITY by { assert Pow2(5) == 32; assert Pow2(8) == 256; }
    PowerOfTwoTest(SPSC_CAPACITY);
  }
}
