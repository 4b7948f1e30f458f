/** The worker pool of `worker_pool.c`: one dispatching thread, any number of workers, each
    behind its own ring, interleaved at the ring's atomic steps, through shutdown. */
module Pool {
  import opened Words
  import opened Ring
  import opened RingViews

  const SPSC_CAPACITY := 1024

  /** A worker thread in its loop. */
  datatype Thread =
    | Testing
    | Popping
    | Holding(item: Ptr)
    | Ran(item: Ptr)
    | Exited

  /** One worker: its ring, its thread, its flag, and the items it executed and freed. */
  datatype Worker = Worker(
    ring: Ring.State,
    thread: Thread,
    running: bool,
    executed: seq<Ptr>,
    freed: seq<Ptr>)

  /** The H2O thread. `Stopping(i, stored)` is `worker_pool_destroy` at worker `i`. */
  datatype Dispatcher =
    | Ready
    | Pushing(worker: nat, item: Ptr)
    | Stopping(i: nat, stored: bool)
    | Destroyed

  /** `calls` counts all dispatches; `next_worker` is that count modulo 2^64. `granted` are the
      items of the calls that got memory, `rejected` those the dispatcher freed because the ring
      was full. */
  datatype PoolState = PoolState(
    workers: seq<Worker>,
    dispatcher: Dispatcher,
    calls: nat,
    granted: seq<Ptr>,
    rejected: seq<Ptr>)

  datatype PoolEvent =
    | Dispatch(malloc: bool)
    | DispatcherStep
    | WorkerStep(i: nat)
    | Destroy

  /** Round robin: the worker of dispatch call number `c`. */
  function Route(c: nat, n: nat): (i: nat)
    requires n > 0
    ensures i < n
  {
    Wrap(c) % n
  }

  /** The address of the item allocated by call number `c`: fresh and not NULL. */
  function ItemOf(c: nat): Ptr { c + 1 }

  function StartWorker(slots: seq<Ptr>): Worker
  {
    Worker(Init(10, slots), Testing, true, [], [])
  }

  function StartPool(n: nat, slots: seq<Ptr>): PoolState
  {
    PoolState(seq(n, _ => StartWorker(slots)), Ready, 0, [], [])
  }

  /** The worker after one step of its `spsc_ring_pop`; a NULL result makes it yield and test again. */
  function AfterPop(w: Worker, r: Ring.State): Worker
  {
    var next := if !w.ring.consumer.CReturns? then Popping
                else if w.ring.consumer.item == NULL then Testing
                else Holding(w.ring.consumer.item);
    w.(ring := r, thread := next)
  }

  /** One step of `worker_thread`. */
  function StepWorker(w: Worker): Worker
    requires w.ring.capacity > 0
  {
    match w.thread
    case Testing =>
      if w.running then w.(ring := Ring.Step(w.ring, CallPop), thread := Popping) else w.(thread := Exited)
    case Popping => AfterPop(w, Ring.Step(w.ring, ConsumerStep))
    case Holding(x) => w.(thread := Ran(x), executed := w.executed + [x])
    case Ran(x) => w.(thread := Testing, freed := w.freed + [x])
    case Exited => w
  }

  function SetWorker(s: PoolState, i: nat, w: Worker): PoolState
    requires i < |s.workers|
  {
    s.(workers := s.workers[i := w])
  }

  /** `worker_pool_dispatch` up to the call of `spsc_ring_push`. */
  function StepDispatch(s: PoolState, malloc: bool): PoolState
    requires |s.workers| > 0 && forall i :: 0 <= i < |s.workers| ==> s.workers[i].ring.capacity > 0
  {
    if !s.dispatcher.Ready? then s
    else if !malloc then s.(calls := s.calls + 1)
    else
      var i, x := Route(s.calls, |s.workers|), ItemOf(s.calls);
      var w := s.workers[i];
      SetWorker(s, i, w.(ring := Ring.Step(w.ring, CallPush(x))))
        .(calls := s.calls + 1, granted := s.granted + [x], dispatcher := Pushing(i, x))
  }

  /** One step of the push in progress, or of the shutdown. */
  function StepDispatcher(s: PoolState): PoolState
    requires forall i :: 0 <= i < |s.workers| ==> s.workers[i].ring.capacity > 0
  {
    match s.dispatcher
    case Pushing(i, x) =>
      if i >= |s.workers| then s
      else
        var w := s.workers[i];
        var s' := SetWorker(s, i, w.(ring := Ring.Step(w.ring, ProducerStep)));
        if w.ring.producer.PReturns? then
          s'.(dispatcher := Ready, rejected := if w.ring.producer.ok then s.rejected else s.rejected + [x])
        else s'
    case Stopping(i, stored) =>
      if i >= |s.workers| then s.(dispatcher := Destroyed)
      else if !stored then SetWorker(s, i, s.workers[i].(running := false)).(dispatcher := Stopping(i, true))
      else if s.workers[i].thread.Exited? then s.(dispatcher := Stopping(i + 1, false))
      else s
    case _ => s
  }

  function StepPool(s: PoolState, e: PoolEvent): PoolState
    requires |s.workers| > 0 && forall i :: 0 <= i < |s.workers| ==> s.workers[i].ring.capacity > 0
  {
    match e
    case Dispatch(malloc) => StepDispatch(s, malloc)
    case DispatcherStep => StepDispatcher(s)
    case WorkerStep(i) => if i < |s.workers| then SetWorker(s, i, StepWorker(s.workers[i])) else s
    case Destroy => if s.dispatcher.Ready? then s.(dispatcher := Stopping(0, false)) else s
  }

  /* --- The invariant --- */

  ghost predicate RingGood(r: Ring.State)
  {
    LinInv(r) && NullFree(r) && r.capacity == SPSC_CAPACITY
  }

  /** The item taken from the ring and not yet executed, if any. */
  function InHand(w: Worker): seq<Ptr>
  {
    if w.thread.Holding? then [w.thread.item]
    else if w.ring.consumer.CReturns? && w.ring.consumer.item != NULL then [w.ring.consumer.item]
    else []
  }

  /** Everything accepted, in order: executed, then in hand, then still in the ring. */
  ghost predicate Books(w: Worker)
  {
    && w.ring.popped <= |w.ring.accepted|
    && w.ring.accepted == w.executed + InHand(w) + Queue(w.ring)
    && |w.executed| + |InHand(w)| == w.ring.popped
    && (w.thread.Popping? <==> !w.ring.consumer.CIdle?)
    && w.executed == w.freed + (if w.thread.Ran? then [w.thread.item] else [])
  }

  ghost predicate Conserved(w: Worker)
  {
    RingGood(w.ring) && Books(w)
  }

  lemma RingStepGood(r: Ring.State, e: Event)
    requires RingGood(r) && e != CallPush(NULL)
    ensures RingGood(Ring.Step(r, e))
  {
    StepRefinesQueue(r, e);
    StepKeepsHistory(r, e);
    StepKeepsAnswered(r, e);
    StepKeepsOneToOne(r, e);
    StepKeepsNullFree(r, e);
  }

  /** What a consumer step changes: only the tail store takes an item, the oldest one. */
  ghost predicate ConsumerEffect(r: Ring.State, r': Ring.State)
  {
    && r.popped <= |r.accepted| && r'.accepted == r.accepted
    && (if r.consumer.CRead?
        then r.popped < |r.accepted| && r'.popped == r.popped + 1
             && r'.consumer.CReturns? && r'.consumer.item == r.accepted[r.popped] != NULL
        else r'.popped == r.popped && (r'.consumer.CReturns? && !r.consumer.CReturns? ==> r'.consumer.item == NULL))
    && (!r.consumer.CIdle? ==> (r.consumer.CReturns? <==> r'.consumer.CIdle?))
    && !(r.consumer.CReturns? && r'.consumer.CReturns?)
  }

  lemma ConsumerStepEffect(r: Ring.State)
    requires RingGood(r)
    ensures ConsumerEffect(r, Ring.Step(r, ConsumerStep))
  {
    MaskIsMod(r, r.popped);
  }

  lemma PopKeepsBooks(w: Worker, r: Ring.State)
    requires Books(w) && w.thread.Popping? && ConsumerEffect(w.ring, r)
    ensures Books(AfterPop(w, r))
  {
    if w.ring.consumer.CRead? {
      assert Queue(w.ring) == [w.ring.accepted[w.ring.popped]] + Queue(r);
    } else {
      assert Queue(w.ring) == Queue(r);
    }
  }

  lemma WorkerKeepsConserved(w: Worker)
    requires Conserved(w)
    ensures Conserved(StepWorker(w))
  {
    match w.thread
    case Testing => RingStepGood(w.ring, CallPop);
    case Popping =>
      RingStepGood(w.ring, ConsumerStep);
      ConsumerStepEffect(w.ring);
      PopKeepsBooks(w, Ring.Step(w.ring, ConsumerStep));
    case _ =>
  }

  /** What a producer step changes: only the head store adds an item, at the end. */
  ghost predicate ProducerEffect(r: Ring.State, r': Ring.State)
  {
    && r'.popped == r.popped && r'.consumer == r.consumer
    && r'.accepted == (if r.producer.PWrote? then r.accepted + [r.producer.item] else r.accepted)
  }

  lemma PushStepEffect(r: Ring.State, e: Event)
    requires r.capacity > 0 && (e.CallPush? ==> !r.producer.PWrote?) && (e == ProducerStep || e.CallPush?)
    ensures ProducerEffect(r, Ring.Step(r, e))
  {
  }

  lemma PushKeepsBooks(w: Worker, r: Ring.State)
    requires Books(w) && ProducerEffect(w.ring, r)
    ensures Books(w.(ring := r))
  {
    if w.ring.producer.PWrote? {
      assert Queue(r) == Queue(w.ring) + [w.ring.producer.item];
    }
  }

  lemma PushKeepsConserved(w: Worker, e: Event)
    requires Conserved(w) && (e == ProducerStep || (e.CallPush? && e.item != NULL && !w.ring.producer.PWrote?))
    ensures Conserved(w.(ring := Ring.Step(w.ring, e)))
  {
    RingStepGood(w.ring, e);
    PushStepEffect(w.ring, e);
    PushKeepsBooks(w, Ring.Step(w.ring, e));
  }

  /* --- Items --- */

  /** The items accepted by worker `i` were routed to it, in order, and are at most `bound`. */
  ghost predicate Routed(acc: seq<Ptr>, i: nat, n: nat, bound: nat)
    requires n > 0
  {
    && (forall a :: 0 <= a < |acc| ==> 1 <= acc[a] <= bound && Route(acc[a] - 1, n) == i)
    && (forall a, b :: 0 <= a < b < |acc| ==> acc[a] < acc[b])
  }

  /** The item of the push in progress, until it is accepted. */
  predicate Carries(p: Producer, x: Ptr)
  {
    match p
    case PCalled(y) => y == x
    case PGotHead(y, _) => y == x
    case PHasRoom(y, _) => y == x
    case PWrote(y, _) => y == x
    case PReturns(ok, _) => !ok
    case PIdle => false
  }

  predicate PushAccepted(s: PoolState)
  {
    && s.dispatcher.Pushing? && s.dispatcher.worker < |s.workers|
    && s.workers[s.dispatcher.worker].ring.producer.PReturns?
    && s.workers[s.dispatcher.worker].ring.producer.ok
  }

  /** All items seen so far are at most this. The item of a push not yet decided is the next one. */
  function Bound(s: PoolState): nat
  {
    if s.dispatcher.Pushing? && !PushAccepted(s) && s.calls > 0 then s.calls - 1 else s.calls
  }

  ghost predicate Dispatching(s: PoolState)
    requires |s.workers| > 0
  {
    match s.dispatcher
    case Pushing(i, x) =>
      && s.calls > 0 && x == ItemOf(s.calls - 1) && i == Route(s.calls - 1, |s.workers|)
      && (forall j :: 0 <= j < |s.workers| && j != i ==> s.workers[j].ring.producer.PIdle?)
      && (Carries(s.workers[i].ring.producer, x) || PushAccepted(s))
    case _ => forall j :: 0 <= j < |s.workers| ==> s.workers[j].ring.producer.PIdle?
  }

  ghost predicate Rejections(s: PoolState)
  {
    && (forall a :: 0 <= a < |s.rejected| ==> 1 <= s.rejected[a] <= Bound(s))
    && (forall a, b :: 0 <= a < b < |s.rejected| ==> s.rejected[a] < s.rejected[b])
    && (forall i, a, b :: 0 <= i < |s.workers| && 0 <= a < |s.rejected| && 0 <= b < |s.workers[i].ring.accepted| ==>
          s.rejected[a] != s.workers[i].ring.accepted[b])
  }

  /** Workers already joined by `worker_pool_destroy` have exited. */
  ghost predicate Joined(s: PoolState)
  {
    var n := match s.dispatcher case Stopping(i, _) => i case Destroyed => |s.workers| case _ => 0;
    forall j :: 0 <= j < n && j < |s.workers| ==> s.workers[j].thread.Exited?
  }

  ghost predicate AllConserved(s: PoolState)
  {
    forall i :: 0 <= i < |s.workers| ==> Conserved(s.workers[i])
  }

  ghost predicate Items(s: PoolState)
  {
    && |s.workers| > 0
    && (forall i :: 0 <= i < |s.workers| ==> s.workers[i].ring.capacity > 0)
    && (forall i :: 0 <= i < |s.workers| ==> Routed(s.workers[i].ring.accepted, i, |s.workers|, Bound(s)))
    && Dispatching(s) && Rejections(s)
  }

  ghost predicate PoolInv(s: PoolState)
  {
    AllConserved(s) && Items(s) && Joined(s)
  }

  lemma SetKeepsConserved(s: PoolState, i: nat, w: Worker)
    requires AllConserved(s) && i < |s.workers| && Conserved(w)
    ensures AllConserved(SetWorker(s, i, w))
  {
  }

  lemma PoolStepKeepsConserved(s: PoolState, e: PoolEvent)
    requires AllConserved(s) && Items(s)
    ensures AllConserved(StepPool(s, e))
  {
    match e
    case Dispatch(malloc) =>
      if s.dispatcher.Ready? && malloc {
        var i := Route(s.calls, |s.workers|);
        PushKeepsConserved(s.workers[i], CallPush(ItemOf(s.calls)));
        SetKeepsConserved(s, i, s.workers[i].(ring := Ring.Step(s.workers[i].ring, CallPush(ItemOf(s.calls)))));
      }
    case DispatcherStep =>
      if s.dispatcher.Pushing? {
        var i := s.dispatcher.worker;
        PushKeepsConserved(s.workers[i], ProducerStep);
        SetKeepsConserved(s, i, s.workers[i].(ring := Ring.Step(s.workers[i].ring, ProducerStep)));
      } else if s.dispatcher.Stopping? && s.dispatcher.i < |s.workers| {
        SetKeepsConserved(s, s.dispatcher.i, s.workers[s.dispatcher.i].(running := false));
      }
    case WorkerStep(i) =>
      if i < |s.workers| {
        WorkerKeepsConserved(s.workers[i]);
        SetKeepsConserved(s, i, StepWorker(s.workers[i]));
      }
    case Destroy =>
  }

  /** A worker's own steps change neither the accepted items nor the producer's side. */
  lemma WorkerKeepsProducer(w: Worker)
    requires w.ring.capacity > 0
    ensures StepWorker(w).ring.accepted == w.ring.accepted && StepWorker(w).ring.producer == w.ring.producer
    ensures StepWorker(w).ring.capacity == w.ring.capacity
  {
  }

  lemma WorkerKeepsItems(s: PoolState, i: nat)
    requires Items(s) && i < |s.workers|
    ensures Items(SetWorker(s, i, StepWorker(s.workers[i])))
  {
    WorkerKeepsProducer(s.workers[i]);
    var s' := SetWorker(s, i, StepWorker(s.workers[i]));
    assert forall j :: 0 <= j < |s.workers| ==>
      && s'.workers[j].ring.accepted == s.workers[j].ring.accepted
      && s'.workers[j].ring.producer == s.workers[j].ring.producer;
    assert Bound(s') == Bound(s);
  }

  lemma RoutedMore(acc: seq<Ptr>, i: nat, n: nat, bound: nat)
    requires n > 0 && Routed(acc, i, n, bound)
    ensures Routed(acc, i, n, bound + 1)
    ensures Route(bound, n) == i ==> Routed(acc + [bound + 1], i, n, bound + 1)
  {
  }

  lemma DispatchKeepsItems(s: PoolState, malloc: bool)
    requires Items(s)
    ensures Items(StepDispatch(s, malloc))
  {
    var s' := StepDispatch(s, malloc);
    if s.dispatcher.Ready? {
      forall j | 0 <= j < |s.workers|
        ensures s'.workers[j].ring.accepted == s.workers[j].ring.accepted
      {
      }
      assert Bound(s) == s.calls;
      if malloc {
        assert Bound(s') == s.calls;
      } else {
        forall j | 0 <= j < |s.workers|
          ensures Routed(s'.workers[j].ring.accepted, j, |s.workers|, s.calls + 1)
        {
          RoutedMore(s.workers[j].ring.accepted, j, |s.workers|, s.calls);
        }
      }
    }
  }

  /** The producer carries its item until the head store. */
  lemma CarriedOn(r: Ring.State, x: Ptr)
    requires r.capacity > 0 && Carries(r.producer, x)
    ensures var p := Ring.Step(r, ProducerStep).producer;
      match r.producer
      case PReturns(_, _) => p.PIdle?
      case PWrote(y, _) => y == x && p.PReturns? && p.ok
      case _ => Carries(p, x)
  {
  }

  /** The push goes on, without a decision. */
  lemma PushGoesOn(s: PoolState)
    requires Items(s) && s.dispatcher.Pushing?
    requires var p := s.workers[s.dispatcher.worker].ring.producer; !p.PReturns? && !p.PWrote?
    ensures Items(StepDispatcher(s))
  {
    var s', i := StepDispatcher(s), s.dispatcher.worker;
    PushStepEffect(s.workers[i].ring, ProducerStep);
    CarriedOn(s.workers[i].ring, s.dispatcher.item);
    assert forall j :: 0 <= j < |s.workers| ==> s'.workers[j].ring.accepted == s.workers[j].ring.accepted;
    assert Bound(s') == Bound(s);
  }

  /** The head store accepts the item, which is larger than all before it. */
  lemma PushAccepts(s: PoolState)
    requires Items(s) && s.dispatcher.Pushing? && s.workers[s.dispatcher.worker].ring.producer.PWrote?
    ensures Items(StepDispatcher(s))
  {
    var i := s.dispatcher.worker;
    var r := Ring.Step(s.workers[i].ring, ProducerStep);
    PushStepEffect(s.workers[i].ring, ProducerStep);
    CarriedOn(s.workers[i].ring, s.dispatcher.item);
    AcceptedItems(s, r);
  }

  lemma AcceptedItems(s: PoolState, r: Ring.State)
    requires Items(s) && s.dispatcher.Pushing? && s.workers[s.dispatcher.worker].ring.producer.PWrote?
    requires r.capacity > 0 && r.producer.PReturns? && r.producer.ok
    requires r.accepted == s.workers[s.dispatcher.worker].ring.accepted + [s.dispatcher.item]
    ensures var i := s.dispatcher.worker; Items(SetWorker(s, i, s.workers[i].(ring := r)))
  {
    var i := s.dispatcher.worker;
    var s' := SetWorker(s, i, s.workers[i].(ring := r));
    assert Bound(s) == s.calls - 1 && Bound(s') == s.calls;
    forall j | 0 <= j < |s.workers|
      ensures Routed(s'.workers[j].ring.accepted, j, |s.workers|, Bound(s'))
    {
      RoutedMore(s.workers[j].ring.accepted, j, |s.workers|, s.calls - 1);
    }
    AcceptedRejections(s, s', i);
  }

  lemma AcceptedRejections(s: PoolState, s': PoolState, i: nat)
    requires Rejections(s) && s'.rejected == s.rejected && |s'.workers| == |s.workers| && i < |s.workers|
    requires s.calls > 0 && Bound(s) == s.calls - 1 && Bound(s') == s.calls
    requires s'.workers[i].ring.accepted == s.workers[i].ring.accepted + [ItemOf(s.calls - 1)]
    requires forall j :: 0 <= j < |s.workers| && j != i ==> s'.workers[j] == s.workers[j]
    ensures Rejections(s')
  {
  }

  /** The push returns; a refused item joins the rejected ones. */
  lemma PushReturns(s: PoolState)
    requires Items(s) && s.dispatcher.Pushing? && s.workers[s.dispatcher.worker].ring.producer.PReturns?
    ensures Items(StepDispatcher(s))
  {
    var s', i := StepDispatcher(s), s.dispatcher.worker;
    PushStepEffect(s.workers[i].ring, ProducerStep);
    assert forall j :: 0 <= j < |s.workers| ==> s'.workers[j].ring.accepted == s.workers[j].ring.accepted;
    assert Bound(s') == s.calls;
    forall j | 0 <= j < |s.workers|
      ensures Routed(s'.workers[j].ring.accepted, j, |s.workers|, Bound(s'))
    {
      if Bound(s) < s.calls { RoutedMore(s.workers[j].ring.accepted, j, |s.workers|, s.calls - 1); }
    }
  }

  lemma PushKeepsItems(s: PoolState)
    requires Items(s) && s.dispatcher.Pushing?
    ensures Items(StepDispatcher(s))
  {
    match s.workers[s.dispatcher.worker].ring.producer
    case PReturns(_, _) => PushReturns(s);
    case PWrote(_, _) => PushAccepts(s);
    case _ => PushGoesOn(s);
  }

  lemma PoolStepKeepsItems(s: PoolState, e: PoolEvent)
    requires Items(s)
    ensures Items(StepPool(s, e))
  {
    match e
    case Dispatch(malloc) => DispatchKeepsItems(s, malloc);
    case DispatcherStep =>
      if s.dispatcher.Pushing? { PushKeepsItems(s); } else { StoppingKeepsItems(s); }
    case WorkerStep(i) =>
      if i < |s.workers| { WorkerKeepsItems(s, i); }
    case Destroy =>
  }

  lemma StoppingKeepsItems(s: PoolState)
    requires Items(s) && !s.dispatcher.Pushing?
    ensures Items(StepDispatcher(s))
  {
    var s' := StepDispatcher(s);
    assert forall j :: 0 <= j < |s.workers| ==> s'.workers[j].ring == s.workers[j].ring;
  }

  lemma PoolStepKeepsJoined(s: PoolState, e: PoolEvent)
    requires Items(s) && Joined(s)
    ensures Joined(StepPool(s, e))
  {
  }

  function RunPool(s: PoolState, es: seq<PoolEvent>): PoolState
    requires |s.workers| > 0 && forall i :: 0 <= i < |s.workers| ==> s.workers[i].ring.capacity > 0
    ensures |RunPool(s, es).workers| == |s.workers|
    ensures forall i :: 0 <= i < |s.workers| ==> RunPool(s, es).workers[i].ring.capacity > 0
  {
    if es == [] then s else StepPool(RunPool(s, es[..|es| - 1]), es[|es| - 1])
  }

  lemma WorkerStartsGood(slots: seq<Ptr>)
    requires |slots| == SPSC_CAPACITY
    ensures Conserved(StartWorker(slots))
  {
    assert Pow2(10) == SPSC_CAPACITY by { assert Pow2(5) == 32; assert Pow2(8) == 256; }
    RunKeepsLinInv(10, slots, []);
    assert Run(Init(10, slots), []) == Init(10, slots);
  }

  lemma StartIsConserved(n: nat, slots: seq<Ptr>)
    requires n > 0 && |slots| == SPSC_CAPACITY
    ensures AllConserved(StartPool(n, slots))
  {
    var s := StartPool(n, slots);
    WorkerStartsGood(slots);
    forall i | 0 <= i < |s.workers| ensures Conserved(s.workers[i]) { assert s.workers[i] == StartWorker(slots); }
  }

  lemma StartHasItems(s: PoolState)
    requires |s.workers| > 0 && s.dispatcher.Ready? && s.rejected == []
    requires forall i :: 0 <= i < |s.workers| ==>
      var r := s.workers[i].ring; r.capacity > 0 && r.accepted == [] && r.producer.PIdle?
    ensures Items(s) && Joined(s)
  {
  }

  lemma StartIsGood(n: nat, slots: seq<Ptr>)
    requires n > 0 && |slots| == SPSC_CAPACITY
    ensures PoolInv(StartPool(n, slots))
  {
    StartIsConserved(n, slots);
    StartHasItems(StartPool(n, slots));
  }

  lemma StepKeepsPoolInv(s: PoolState, e: PoolEvent)
    requires PoolInv(s)
    ensures PoolInv(StepPool(s, e))
  {
    PoolStepKeepsConserved(s, e);
    PoolStepKeepsItems(s, e);
    PoolStepKeepsJoined(s, e);
  }

  lemma {:induction false} RunKeepsPoolInv(n: nat, slots: seq<Ptr>, es: seq<PoolEvent>)
    requires n > 0 && |slots| == SPSC_CAPACITY
    ensures PoolInv(RunPool(StartPool(n, slots), es))
  {
    if es == [] {
      StartIsGood(n, slots);
    } else {
      RunKeepsPoolInv(n, slots, es[..|es| - 1]);
      StepKeepsPoolInv(RunPool(StartPool(n, slots), es[..|es| - 1]), es[|es| - 1]);
    }
  }

  lemma RoutedApart(acc: seq<Ptr>, acc': seq<Ptr>, i: nat, j: nat, n: nat, bound: nat, a: nat, b: nat)
    requires n > 0 && Routed(acc, i, n, bound) && Routed(acc', j, n, bound) && (i == j ==> acc == acc')
    requires a < |acc| && b < |acc'| && acc[a] == acc'[b]
    ensures i == j && a == b
  {
  }

  /** Main result: in every run of the pool each worker has executed a prefix of its accepted
      items, in order, and freed what it executed; no item is accepted twice or by two workers,
      and a rejected one is accepted by none. */
  lemma PoolConserves(n: nat, slots: seq<Ptr>, es: seq<PoolEvent>)
    requires n > 0 && |slots| == SPSC_CAPACITY
    ensures var s := RunPool(StartPool(n, slots), es);
      && (forall i :: 0 <= i < n ==> Conserved(s.workers[i]))
      && (forall i, j, a, b :: 0 <= i < n && 0 <= j < n && 0 <= a < |s.workers[i].ring.accepted|
            && 0 <= b < |s.workers[j].ring.accepted| && s.workers[i].ring.accepted[a] == s.workers[j].ring.accepted[b]
            ==> i == j && a == b)
      && Rejections(s)
  {
    var s := RunPool(StartPool(n, slots), es);
    RunKeepsPoolInv(n, slots, es);
    forall i, j, a, b | 0 <= i < n && 0 <= j < n && 0 <= a < |s.workers[i].ring.accepted|
        && 0 <= b < |s.workers[j].ring.accepted| && s.workers[i].ring.accepted[a] == s.workers[j].ring.accepted[b]
      ensures i == j && a == b
    {
      RoutedApart(s.workers[i].ring.accepted, s.workers[j].ring.accepted, i, j, n, Bound(s), a, b);
    }
  }

  /** After `worker_pool_destroy` exactly the items still in the rings, at most 1024 per worker,
      are left unexecuted, and nothing is in hand. */
  lemma DestroyAbandonsRings(n: nat, slots: seq<Ptr>, es: seq<PoolEvent>, i: nat)
    requires n > 0 && |slots| == SPSC_CAPACITY && i < n
    requires RunPool(StartPool(n, slots), es).dispatcher.Destroyed?
    ensures var w := RunPool(StartPool(n, slots), es).workers[i];
      && w.thread.Exited? && w.freed == w.executed
      && w.ring.popped <= |w.ring.accepted|
      && w.ring.accepted == w.executed + Queue(w.ring) && |Queue(w.ring)| <= SPSC_CAPACITY
  {
    RunKeepsPoolInv(n, slots, es);
  }
}
