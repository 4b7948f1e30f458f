/** The lock-free ring of `spsc_ring.c`, one atomic load, slot access or store at a time, under
    every interleaving of one producer and one consumer. Counters are 64-bit words that wrap. */
module Ring {
  import opened Words

  /** A pointer; `NULL` is 0. */
  type Ptr = nat

  const NULL: Ptr := 0

  /** An operation of the bounded queue, with its result. */
  datatype Op = Push(item: Ptr, ok: bool) | Pop(result: Option<Ptr>)

  /** The producer between two of its atomic steps. `op` is the index of its linearization. */
  datatype Producer =
    | PIdle
    | PCalled(item: Ptr)
    | PGotHead(item: Ptr, head: Word)
    | PHasRoom(item: Ptr, head: Word)
    | PWrote(item: Ptr, head: Word)
    | PReturns(ok: bool, op: nat)

  datatype Consumer =
    | CIdle
    | CCalled
    | CGotTail(tail: Word)
    | CNonEmpty(tail: Word)
    | CRead(tail: Word, item: Ptr)
    | CReturns(item: Ptr, op: nat)

  /** A linearized operation: what it did, when it was called and when it took effect. */
  datatype Lin = Lin(op: Op, called: nat, at: nat)

  /** What a caller asks for. */
  datatype Request = PushOf(item: Ptr) | PopOf

  /** A completed call: its linearization, what was asked and when, what it returned and when. */
  datatype Call = Call(op: nat, request: Request, called: nat, returned: nat, result: Ptr)

  /** The ring, the two threads, and the history. `accepted` are all items whose push took
      effect; `popped` counts the pops that did; `pushItem` is what the push in progress was
      called with. */
  datatype State = State(
    capacity: nat,
    slots: seq<Ptr>,
    head: Word,
    tail: Word,
    producer: Producer,
    consumer: Consumer,
    accepted: seq<Ptr>,
    popped: nat,
    time: nat,
    pushItem: Ptr,
    pushCalled: nat,
    popCalled: nat,
    lin: seq<Lin>,
    calls: seq<Call>)

  datatype Event = CallPush(item: Ptr) | ProducerStep | CallPop | ConsumerStep

  /** A count as a `size_t`. */
  function Wrap(n: int): Word { n % 0x1_0000_0000_0000_0000 }

  function WordAdd(x: Word, n: nat): Word { Wrap(x + n) }

  /** `x - y` on `size_t`. */
  function WordSub(x: Word, y: Word): Word { Wrap(x as int - y) }

  /** `x & mask`, with `mask == capacity - 1`. */
  function SlotOf(s: State, x: Word): nat
    requires s.capacity > 0
  {
    And(x, s.capacity - 1)
  }

  function Linearize(s: State, op: Op, called: nat): State
  {
    s.(lin := s.lin + [Lin(op, called, s.time)])
  }

  function BoolPtr(b: bool): Ptr { if b then 1 else 0 }

  /** `spsc_ring_push`, one step further. */
  function StepProducer(s: State): State
    requires s.capacity > 0
  {
    match s.producer
    case PIdle => s
    case PCalled(x) => s.(producer := PGotHead(x, s.head))
    case PGotHead(x, h) =>
      if WordSub(h, s.tail) >= s.capacity
      then Linearize(s.(producer := PReturns(false, |s.lin|)), Push(x, false), s.pushCalled)
      else s.(producer := PHasRoom(x, h))
    case PHasRoom(x, h) =>
      if SlotOf(s, h) < |s.slots| then s.(slots := s.slots[SlotOf(s, h) := x], producer := PWrote(x, h)) else s
    case PWrote(x, h) =>
      Linearize(s.(head := WordAdd(h, 1), accepted := s.accepted + [x], producer := PReturns(true, |s.lin|)),
                Push(x, true), s.pushCalled)
    case PReturns(ok, i) =>
      s.(producer := PIdle, calls := s.calls + [Call(i, PushOf(s.pushItem), s.pushCalled, s.time, BoolPtr(ok))])
  }

  /** `spsc_ring_pop`, one step further. */
  function StepConsumer(s: State): State
    requires s.capacity > 0
  {
    match s.consumer
    case CIdle => s
    case CCalled => s.(consumer := CGotTail(s.tail))
    case CGotTail(t) =>
      if t == s.head
      then Linearize(s.(consumer := CReturns(NULL, |s.lin|)), Pop(None), s.popCalled)
      else s.(consumer := CNonEmpty(t))
    case CNonEmpty(t) =>
      if SlotOf(s, t) < |s.slots| then s.(consumer := CRead(t, s.slots[SlotOf(s, t)])) else s
    case CRead(t, x) =>
      Linearize(s.(tail := WordAdd(t, 1), popped := s.popped + 1, consumer := CReturns(x, |s.lin|)),
                Pop(Some(x)), s.popCalled)
    case CReturns(x, i) =>
      s.(consumer := CIdle, calls := s.calls + [Call(i, PopOf, s.popCalled, s.time, x)])
  }

  function Tick(s: State): State { s.(time := s.time + 1) }

  /** One atomic step of one thread; a step that is not possible only lets time pass. */
  function Step(s: State, e: Event): State
    requires s.capacity > 0
    ensures Step(s, e).capacity == s.capacity
  {
    var s' := match e
      case CallPush(x) =>
        if s.producer.PIdle? then s.(producer := PCalled(x), pushItem := x, pushCalled := s.time) else s
      case ProducerStep => StepProducer(s)
      case CallPop => if s.consumer.CIdle? then s.(consumer := CCalled, popCalled := s.time) else s
      case ConsumerStep => StepConsumer(s);
    Tick(s')
  }

  function Run(s: State, es: seq<Event>): (s': State)
    requires s.capacity > 0
    ensures s'.capacity == s.capacity
  {
    if es == [] then s else Step(Run(s, es[..|es| - 1]), es[|es| - 1])
  }

  /** `spsc_ring_init` over the caller's slots, with capacity `2^k`. */
  function Init(k: nat, slots: seq<Ptr>): State
  {
    State(Pow2(k), slots, 0, 0, PIdle, CIdle, [], 0, 0, NULL, 0, 0, [], [])
  }

  /* --- The invariant --- */

  /** The abstract queue: accepted and not yet popped. */
  function Queue(s: State): seq<Ptr>
    requires s.popped <= |s.accepted|
  {
    s.accepted[s.popped..]
  }

  ghost predicate Shape(s: State)
  {
    && s.capacity > 0 && s.capacity < TWO64 && TWO64 % s.capacity == 0
    && (exists k: nat :: s.capacity == Pow2(k))
    && |s.slots| == s.capacity
    && s.head == Wrap(|s.accepted|) && s.tail == Wrap(s.popped)
    && s.popped <= |s.accepted| <= s.popped + s.capacity
  }

  ghost predicate Stored(s: State)
    requires s.capacity > 0 && |s.slots| == s.capacity
  {
    forall i :: s.popped <= i < |s.accepted| ==> s.slots[i % s.capacity] == s.accepted[i]
  }

  ghost predicate ProducerInv(s: State)
    requires Shape(s)
  {
    match s.producer
    case PGotHead(_, h) => h == s.head
    case PHasRoom(_, h) => h == s.head && |s.accepted| < s.popped + s.capacity
    case PWrote(x, h) =>
      h == s.head && |s.accepted| < s.popped + s.capacity && s.slots[|s.accepted| % s.capacity] == x
    case _ => true
  }

  ghost predicate ConsumerInv(s: State)
    requires Shape(s)
  {
    match s.consumer
    case CGotTail(t) => t == s.tail
    case CNonEmpty(t) => t == s.tail && s.popped < |s.accepted|
    case CRead(t, x) => t == s.tail && s.popped < |s.accepted| && x == s.accepted[s.popped]
    case _ => true
  }

  ghost predicate Inv(s: State)
  {
    Shape(s) && Stored(s) && ProducerInv(s) && ConsumerInv(s)
  }

  /** Masking a wrapped counter gives the unbounded count modulo the capacity. */
  lemma MaskCount(n: nat, c: nat)
    requires 0 < c < TWO64 && TWO64 % c == 0 && exists k: nat :: c == Pow2(k)
    ensures And(Wrap(n), c - 1) == n % c < c
  {
    var k: nat :| c == Pow2(k);
    AndMask(Wrap(n), k);
    ModOfMod(n, c, TWO64);
  }

  lemma MaskIsMod(s: State, n: nat)
    requires Shape(s)
    ensures SlotOf(s, Wrap(n)) == n % s.capacity
  {
    MaskCount(n, s.capacity);
  }

  /** Two counts less than a capacity apart use different slots. */
  lemma SlotsDiffer(i: nat, j: nat, c: nat)
    requires i < j < i + c
    ensures i % c != j % c
  {
    if i % c == j % c {
      var q := j / c - i / c;
      assert j - i == q * c;
      if q >= 1 { MulAtLeast(q, c); } else if q <= -1 { MulAtLeast(-q, c); }
    }
  }

  /** The difference of wrapped counters is the exact number of items. */
  lemma CountersDifference(h: nat, t: nat, c: nat)
    requires t <= h <= t + c && c < TWO64
    ensures WordSub(Wrap(h), Wrap(t)) == h - t
    ensures Wrap(h) == Wrap(t) <==> h == t
  {
    assert Wrap(h) as int - Wrap(t) == h - t + (t / TWO64 - h / TWO64) * TWO64;
    ModShift(h - t, t / TWO64 - h / TWO64, TWO64);
  }

  lemma Difference(s: State)
    requires Shape(s)
    ensures WordSub(s.head, s.tail) == |s.accepted| - s.popped
    ensures s.tail == s.head <==> s.popped == |s.accepted|
  {
    CountersDifference(|s.accepted|, s.popped, s.capacity);
  }

  lemma Increment(n: nat)
    ensures WordAdd(Wrap(n), 1) == Wrap(n + 1)
  {
    ModShift(Wrap(n) as int + 1, n / TWO64, TWO64);
  }

  lemma WriteKeepsStored(s: State, x: Ptr)
    requires Inv(s) && |s.accepted| < s.popped + s.capacity
    ensures Stored(s.(slots := s.slots[|s.accepted| % s.capacity := x]))
  {
    forall i | s.popped <= i < |s.accepted|
      ensures i % s.capacity != |s.accepted| % s.capacity
    {
      SlotsDiffer(i, |s.accepted|, s.capacity);
    }
  }

  lemma ProducerKeepsInv(s: State)
    requires Inv(s)
    ensures Inv(StepProducer(s))
  {
    MaskIsMod(s, |s.accepted|);
    Difference(s);
    Increment(|s.accepted|);
    if s.producer.PHasRoom? { WriteKeepsStored(s, s.producer.item); }
  }

  lemma ConsumerKeepsInv(s: State)
    requires Inv(s)
    ensures Inv(StepConsumer(s))
  {
    MaskIsMod(s, s.popped);
    Difference(s);
    Increment(s.popped);
  }

  lemma StepKeepsInv(s: State, e: Event)
    requires Inv(s)
    ensures Inv(Step(s, e))
  {
    match e
    case ProducerStep => ProducerKeepsInv(s);
    case ConsumerStep => ConsumerKeepsInv(s);
    case _ =>
  }

  /* --- Linearizability --- */

  /** The bounded FIFO queue: one operation, `None` if it could not have this result. */
  function Apply(capacity: nat, q: seq<Ptr>, op: Op): Option<seq<Ptr>>
  {
    match op
    case Push(x, ok) =>
      if ok then (if |q| < capacity then Some(q + [x]) else None)
      else (if |q| == capacity then Some(q) else None)
    case Pop(None) => if q == [] then Some(q) else None
    case Pop(Some(x)) => if q != [] && q[0] == x then Some(q[1..]) else None
  }

  /** Running a history on the bounded FIFO queue, from empty. */
  function Replay(capacity: nat, lin: seq<Lin>): Option<seq<Ptr>>
  {
    if lin == [] then Some([])
    else
      match Replay(capacity, lin[..|lin| - 1])
      case None => None
      case Some(q) => Apply(capacity, q, lin[|lin| - 1].op)
  }

  /** What the caller of an operation gets back. */
  function Result(op: Op): Ptr
  {
    match op
    case Push(_, ok) => BoolPtr(ok)
    case Pop(None) => NULL
    case Pop(Some(x)) => x
  }

  /** Operations take effect after their calls, one at a time, in order. */
  predicate InOrder(lin: seq<Lin>, time: nat)
  {
    && (forall i :: 0 <= i < |lin| ==> lin[i].called < lin[i].at < time)
    && (forall i, j :: 0 <= i < j < |lin| ==> lin[i].at < lin[j].at)
  }

  predicate PushInFlight(s: State)
  {
    && (!s.producer.PIdle? ==> s.pushCalled < s.time)
    && match s.producer
       case PIdle => true
       case PCalled(x) => x == s.pushItem
       case PGotHead(x, _) => x == s.pushItem
       case PHasRoom(x, _) => x == s.pushItem
       case PWrote(x, _) => x == s.pushItem
       case PReturns(ok, i) =>
         i < |s.lin| && s.lin[i].called == s.pushCalled && s.lin[i].op == Push(s.pushItem, ok)
  }

  predicate PopInFlight(s: State)
  {
    && (!s.consumer.CIdle? ==> s.popCalled < s.time)
    && (s.consumer.CReturns? ==>
          && s.consumer.op < |s.lin| && s.lin[s.consumer.op].called == s.popCalled
          && s.lin[s.consumer.op].op.Pop? && Result(s.lin[s.consumer.op].op) == s.consumer.item)
  }

  ghost predicate History(s: State)
  {
    InOrder(s.lin, s.time) && PushInFlight(s) && PopInFlight(s)
  }

  /** The operation is the one that was asked for, on the item that was passed. */
  predicate Asked(op: Op, r: Request)
  {
    match op
    case Push(x, _) => r == PushOf(x)
    case Pop(_) => r == PopOf
  }

  /** Every completed call took effect between its call and its return, as the operation it asked
      for and with the result it returned. */
  ghost predicate Answered(s: State)
  {
    forall a :: 0 <= a < |s.calls| ==>
      var c := s.calls[a];
      c.op < |s.lin| && s.lin[c.op].called == c.called && s.lin[c.op].at < c.returned < s.time
      && Asked(s.lin[c.op].op, c.request) && Result(s.lin[c.op].op) == c.result
  }

  /** The operation at `i` belongs to a call that has not returned yet. */
  predicate InFlight(s: State, i: nat)
  {
    (s.producer.PReturns? && s.producer.op == i) || (s.consumer.CReturns? && s.consumer.op == i)
  }

  predicate Returned(s: State, i: nat)
  {
    exists a :: 0 <= a < |s.calls| && s.calls[a].op == i
  }

  /** Every operation belongs to a call. */
  ghost predicate Covered(s: State)
  {
    forall i :: 0 <= i < |s.lin| ==> InFlight(s, i) || Returned(s, i)
  }

  /** No two calls share an operation. */
  ghost predicate Separate(s: State)
  {
    && (forall a :: 0 <= a < |s.calls| ==> !InFlight(s, s.calls[a].op))
    && (forall a, b :: 0 <= a < b < |s.calls| ==> s.calls[a].op != s.calls[b].op)
  }

  /** Operations and calls correspond one to one. */
  ghost predicate OneToOne(s: State) { Covered(s) && Separate(s) }

  ghost predicate LinInv(s: State)
  {
    && Inv(s) && Replay(s.capacity, s.lin) == Some(Queue(s))
    && History(s) && Answered(s) && OneToOne(s)
  }

  lemma ReplayAppend(capacity: nat, lin: seq<Lin>, l: Lin, q: seq<Ptr>)
    requires Replay(capacity, lin) == Some(q)
    ensures Replay(capacity, lin + [l]) == Apply(capacity, q, l.op)
  {
    assert (lin + [l])[..|lin|] == lin;
  }

  /** The linearization points: a push takes effect at the head store or fails at the tail load,
      a pop takes effect at the tail store or finds the ring empty at the head load. */
  lemma StepRefinesQueue(s: State, e: Event)
    requires Inv(s) && Replay(s.capacity, s.lin) == Some(Queue(s))
    ensures Inv(Step(s, e)) && Replay(s.capacity, Step(s, e).lin) == Some(Queue(Step(s, e)))
  {
    StepKeepsInv(s, e);
    Difference(s);
    var s', q := Step(s, e), Queue(s);
    if |s'.lin| > |s.lin| {
      ReplayAppend(s.capacity, s.lin, s'.lin[|s.lin|], q);
      if e == ProducerStep && s.producer.PWrote? {
        assert Queue(s') == q + [s.producer.item];
      } else if e == ConsumerStep && s.consumer.CRead? {
        assert Queue(s') == q[1..];
      }
    }
  }

  /** How a thread's step changes the history: not at all, by an operation that takes effect now
      and is then in flight, or by the return of the one in flight. */
  ghost predicate Quiet(s: State, s': State)
  {
    s'.lin == s.lin && s'.calls == s.calls && forall i: nat :: InFlight(s', i) <==> InFlight(s, i)
  }

  ghost predicate TakesEffect(s: State, s': State)
  {
    && |s'.lin| == |s.lin| + 1 && s'.lin[..|s.lin|] == s.lin && s'.calls == s.calls
    && forall i: nat :: InFlight(s', i) <==> InFlight(s, i) || i == |s.lin|
  }

  ghost predicate Returns(s: State, s': State)
  {
    && s'.lin == s.lin && |s'.calls| == |s.calls| + 1 && s'.calls[..|s.calls|] == s.calls
    && InFlight(s, s'.calls[|s.calls|].op)
    && forall i: nat :: InFlight(s', i) <==> InFlight(s, i) && i != s'.calls[|s.calls|].op
  }

  ghost predicate SomeKind(s: State, s': State)
  {
    Quiet(s, s') || TakesEffect(s, s') || Returns(s, s')
  }

  /** The operations in flight of the two threads are different ones. */
  predicate FlightsDiffer(s: State)
  {
    && (s.producer.PReturns? ==> s.producer.op < |s.lin|)
    && (s.consumer.CReturns? ==> s.consumer.op < |s.lin|)
    && (s.producer.PReturns? && s.consumer.CReturns? ==> s.producer.op != s.consumer.op)
  }

  lemma ProducerKinds(s: State)
    requires s.capacity > 0 && FlightsDiffer(s)
    ensures SomeKind(s, Tick(StepProducer(s)))
  {
    var s' := Tick(StepProducer(s));
    match s.producer
    case PReturns(_, _) => assert Returns(s, s');
    case PWrote(_, _) => assert TakesEffect(s, s');
    case PGotHead(_, h) =>
      if WordSub(h, s.tail) >= s.capacity { assert TakesEffect(s, s'); } else { assert Quiet(s, s'); }
    case _ => assert Quiet(s, s');
  }

  lemma ConsumerKinds(s: State)
    requires s.capacity > 0 && FlightsDiffer(s)
    ensures SomeKind(s, Tick(StepConsumer(s)))
  {
    var s' := Tick(StepConsumer(s));
    match s.consumer
    case CReturns(_, _) => assert Returns(s, s');
    case CRead(_, _) => assert TakesEffect(s, s');
    case CGotTail(t) =>
      if t == s.head { assert TakesEffect(s, s'); } else { assert Quiet(s, s'); }
    case _ => assert Quiet(s, s');
  }

  lemma StepKinds(s: State, e: Event)
    requires s.capacity > 0 && History(s)
    ensures SomeKind(s, Step(s, e))
  {
    assert FlightsDiffer(s);
    match e
    case ProducerStep => ProducerKinds(s);
    case ConsumerStep => ConsumerKinds(s);
    case _ => assert Quiet(s, Step(s, e));
  }

  lemma InOrderLater(lin: seq<Lin>, l: Lin, time: nat)
    requires InOrder(lin, time)
    ensures InOrder(lin, time + 1)
    ensures l.called < time && l.at == time ==> InOrder(lin + [l], time + 1)
  {
  }

  lemma ProducerKeepsOrder(s: State)
    requires s.capacity > 0 && InOrder(s.lin, s.time) && PushInFlight(s)
    ensures InOrder(StepProducer(s).lin, s.time + 1)
  {
    var s' := StepProducer(s);
    InOrderLater(s.lin, if |s'.lin| > |s.lin| then s'.lin[|s.lin|] else Lin(Pop(None), 0, 0), s.time);
  }

  lemma ProducerKeepsHistory(s: State)
    requires s.capacity > 0 && History(s)
    ensures History(Tick(StepProducer(s)))
  {
    ProducerKeepsOrder(s);
  }

  lemma ConsumerKeepsOrder(s: State)
    requires s.capacity > 0 && InOrder(s.lin, s.time) && PopInFlight(s)
    ensures InOrder(StepConsumer(s).lin, s.time + 1)
  {
    var s' := StepConsumer(s);
    InOrderLater(s.lin, if |s'.lin| > |s.lin| then s'.lin[|s.lin|] else Lin(Pop(None), 0, 0), s.time);
  }

  lemma ConsumerKeepsHistory(s: State)
    requires s.capacity > 0 && History(s)
    ensures History(Tick(StepConsumer(s)))
  {
    ConsumerKeepsOrder(s);
  }

  lemma StepKeepsHistory(s: State, e: Event)
    requires s.capacity > 0 && History(s)
    ensures History(Step(s, e))
  {
    match e
    case ProducerStep => ProducerKeepsHistory(s);
    case ConsumerStep => ConsumerKeepsHistory(s);
    case _ => InOrderLater(s.lin, Lin(Pop(None), 0, 0), s.time);
  }

  lemma StepKeepsAnswered(s: State, e: Event)
    requires s.capacity > 0 && History(s) && Answered(s)
    ensures Answered(Step(s, e))
  {
    match e
    case ProducerStep => ProducerKeepsAnswered(s);
    case ConsumerStep => ConsumerKeepsAnswered(s);
    case _ =>
  }

  lemma ProducerKeepsAnswered(s: State)
    requires s.capacity > 0 && History(s) && Answered(s)
    ensures Answered(Tick(StepProducer(s)))
  {
  }

  lemma ConsumerKeepsAnswered(s: State)
    requires s.capacity > 0 && History(s) && Answered(s)
    ensures Answered(Tick(StepConsumer(s)))
  {
  }

  lemma ReturnedStays(s: State, s': State, i: nat)
    requires |s.calls| <= |s'.calls| && s'.calls[..|s.calls|] == s.calls && Returned(s, i)
    ensures Returned(s', i)
  {
    var a :| 0 <= a < |s.calls| && s.calls[a].op == i;
    assert s'.calls[a] == s'.calls[..|s.calls|][a];
  }

  lemma KindsKeepCovered(s: State, s': State)
    requires Covered(s) && SomeKind(s, s')
    ensures Covered(s')
  {
    forall i | 0 <= i < |s'.lin|
      ensures InFlight(s', i) || Returned(s', i)
    {
      if i < |s.lin| && Returned(s, i) {
        assert s'.calls[..|s.calls|] == s.calls;
        ReturnedStays(s, s', i);
      } else if !InFlight(s', i) {
        assert s'.calls[|s.calls|].op == i;
      }
    }
  }

  lemma KindsKeepSeparate(s: State, s': State)
    requires Separate(s) && SomeKind(s, s')
    requires forall a :: 0 <= a < |s.calls| ==> s.calls[a].op < |s.lin|
    ensures Separate(s')
  {
    assert s'.calls[..|s.calls|] == s.calls;
    assert forall a :: 0 <= a < |s.calls| ==> s'.calls[a] == s'.calls[..|s.calls|][a];
  }

  lemma StepKeepsOneToOne(s: State, e: Event)
    requires s.capacity > 0 && History(s) && Answered(s) && OneToOne(s)
    ensures OneToOne(Step(s, e))
  {
    StepKinds(s, e);
    KindsKeepCovered(s, Step(s, e));
    KindsKeepSeparate(s, Step(s, e));
  }

  lemma {:induction false} RunKeepsLinInv(k: nat, slots: seq<Ptr>, es: seq<Event>)
    requires k < 64 && |slots| == Pow2(k)
    ensures LinInv(Run(Init(k, slots), es))
  {
    if es == [] {
      Pow2Divides(k, 63);
      Pow2Divides(k, 64);
      Pow2Of64();
      assert Pow2(64) == 2 * Pow2(63);
    } else {
      var n := |es| - 1;
      var s := Run(Init(k, slots), es[..n]);
      RunKeepsLinInv(k, slots, es[..n]);
      StepRefinesQueue(s, es[n]);
      StepKeepsHistory(s, es[n]);
      StepKeepsAnswered(s, es[n]);
      StepKeepsOneToOne(s, es[n]);
    }
  }

  /** Main result: in every run the linearized operations are a legal history of the bounded FIFO
      queue, and if one call returns before another is made its operation comes first. */
  lemma Linearizable(k: nat, slots: seq<Ptr>, es: seq<Event>)
    requires k < 64 && |slots| == Pow2(k)
    ensures var s := Run(Init(k, slots), es);
      && LinInv(s)
      && forall a, b :: 0 <= a < |s.calls| && 0 <= b < |s.calls| && s.calls[a].returned < s.calls[b].called ==>
           s.calls[a].op < s.calls[b].op
  {
    var s := Run(Init(k, slots), es);
    RunKeepsLinInv(k, slots, es);
    forall a, b | 0 <= a < |s.calls| && 0 <= b < |s.calls| && s.calls[a].returned < s.calls[b].called
      ensures s.calls[a].op < s.calls[b].op
    {
      var i, j := s.calls[a].op, s.calls[b].op;
      assert s.lin[i].at < s.lin[j].at;
    }
  }
}
