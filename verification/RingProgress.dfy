/** The ring is wait-free: a call in progress returns after at most five steps of its own thread,
    whatever the other thread does or does not do in between. */
module RingProgress {
  import opened Words
  import opened Ring

  /** How often an event occurs in a run. */
  function Count<T(==)>(es: seq<T>, e: T): nat
  {
    if es == [] then 0 else Count(es[..|es| - 1], e) + if es[|es| - 1] == e then 1 else 0
  }

  /** The most steps that a push has left. */
  function PushLeft(p: Producer): nat
  {
    match p
    case PIdle => 0
    case PReturns(_, _) => 1
    case PWrote(_, _) => 2
    case PHasRoom(_, _) => 3
    case PGotHead(_, _) => 4
    case PCalled(_) => 5
  }

  function PopLeft(c: Consumer): nat
  {
    match c
    case CIdle => 0
    case CReturns(_, _) => 1
    case CRead(_, _) => 2
    case CNonEmpty(_) => 3
    case CGotTail(_) => 4
    case CCalled => 5
  }

  /** A call asked for `r` at time `called` has returned since `s`. */
  ghost predicate ReturnedSince(s: State, s': State, r: Request, called: nat)
  {
    exists a :: |s.calls| <= a < |s'.calls| && s'.calls[a].request == r && s'.calls[a].called == called
  }

  /* --- Push --- */

  /** The push in progress in `s` has taken `n` steps since, or has returned. */
  ghost predicate PushOn(s: State, s': State, n: nat)
  {
    && |s.calls| <= |s'.calls|
    && (ReturnedSince(s, s', PushOf(s.pushItem), s.pushCalled)
        || (!s'.producer.PIdle? && PushLeft(s'.producer) + n <= PushLeft(s.producer)
            && s'.pushItem == s.pushItem && s'.pushCalled == s.pushCalled))
  }

  /** Calls that have returned stay in the history. */
  lemma CallsGrow(s: State, e: Event)
    requires s.capacity > 0
    ensures var s' := Step(s, e); |s.calls| <= |s'.calls| && s'.calls[..|s.calls|] == s.calls
  {
  }

  lemma ReturnedStaysSo(s: State, mid: State, s': State, r: Request, called: nat)
    requires |s.calls| <= |mid.calls| <= |s'.calls| && s'.calls[..|mid.calls|] == mid.calls
    requires ReturnedSince(s, mid, r, called)
    ensures ReturnedSince(s, s', r, called)
  {
    var a :| |s.calls| <= a < |mid.calls| && mid.calls[a].request == r && mid.calls[a].called == called;
    assert s'.calls[a] == s'.calls[..|mid.calls|][a];
  }

  /** A producer step is a step towards the return. */
  lemma ProducerStepCounts(s: State)
    requires Inv(s) && !s.producer.PIdle?
    ensures var s' := Step(s, ProducerStep);
      && s'.pushItem == s.pushItem && s'.pushCalled == s.pushCalled
      && PushLeft(s'.producer) < PushLeft(s.producer)
      && (s'.producer.PIdle? ==>
            && |s'.calls| == |s.calls| + 1
            && s'.calls[|s.calls|].request == PushOf(s.pushItem) && s'.calls[|s.calls|].called == s.pushCalled)
  {
    MaskIsMod(s, |s.accepted|);
  }

  lemma PushGoesOn(s: State, mid: State, n: nat, e: Event)
    requires Inv(mid) && PushOn(s, mid, n)
    ensures PushOn(s, Step(mid, e), n + if e == ProducerStep then 1 else 0)
  {
    var s' := Step(mid, e);
    CallsGrow(mid, e);
    if ReturnedSince(s, mid, PushOf(s.pushItem), s.pushCalled) {
      ReturnedStaysSo(s, mid, s', PushOf(s.pushItem), s.pushCalled);
    } else if e == ProducerStep {
      ProducerStepCounts(mid);
      if s'.producer.PIdle? { assert s'.calls[|mid.calls|].request == PushOf(s.pushItem); }
    }
  }

  lemma {:induction false} PushRunsOn(s: State, es: seq<Event>)
    requires Inv(s) && !s.producer.PIdle?
    ensures Inv(Run(s, es)) && PushOn(s, Run(s, es), Count(es, ProducerStep))
  {
    if es != [] {
      var before, e := es[..|es| - 1], es[|es| - 1];
      PushRunsOn(s, before);
      StepKeepsInv(Run(s, before), e);
      PushGoesOn(s, Run(s, before), Count(before, ProducerStep), e);
    }
  }

  lemma {:induction false} RunConcat(s: State, es: seq<Event>, more: seq<Event>)
    requires s.capacity > 0
    ensures Run(s, es + more) == Run(Run(s, es), more)
  {
    if more == [] {
      assert es + more == es;
    } else {
      RunConcat(s, es, more[..|more| - 1]);
      assert (es + more)[..|es + more| - 1] == es + more[..|more| - 1];
    }
  }

  /** Main result: from any state of any run in which a push is in progress, once the producer has
      taken the steps it had left, at most five, the push has returned. */
  lemma PushWaitFree(k: nat, slots: seq<Ptr>, es: seq<Event>, more: seq<Event>)
    requires k < 64 && |slots| == Pow2(k)
    requires var s := Run(Init(k, slots), es);
      !s.producer.PIdle? && Count(more, ProducerStep) >= PushLeft(s.producer)
    ensures PushLeft(Run(Init(k, slots), es).producer) <= 5
    ensures var s := Run(Init(k, slots), es);
      ReturnedSince(s, Run(Init(k, slots), es + more), PushOf(s.pushItem), s.pushCalled)
  {
    RunKeepsLinInv(k, slots, es);
    PushRunsOn(Run(Init(k, slots), es), more);
    RunConcat(Init(k, slots), es, more);
  }

  /* --- Pop --- */

  ghost predicate PopOn(s: State, s': State, n: nat)
  {
    && |s.calls| <= |s'.calls|
    && (ReturnedSince(s, s', PopOf, s.popCalled)
        || (!s'.consumer.CIdle? && PopLeft(s'.consumer) + n <= PopLeft(s.consumer) && s'.popCalled == s.popCalled))
  }

  lemma ConsumerStepCounts(s: State)
    requires Inv(s) && !s.consumer.CIdle?
    ensures var s' := Step(s, ConsumerStep);
      && s'.popCalled == s.popCalled && PopLeft(s'.consumer) < PopLeft(s.consumer)
      && (s'.consumer.CIdle? ==>
            && |s'.calls| == |s.calls| + 1
            && s'.calls[|s.calls|].request == PopOf && s'.calls[|s.calls|].called == s.popCalled)
  {
    MaskIsMod(s, s.popped);
  }

  lemma PopGoesOn(s: State, mid: State, n: nat, e: Event)
    requires Inv(mid) && PopOn(s, mid, n)
    ensures PopOn(s, Step(mid, e), n + if e == ConsumerStep then 1 else 0)
  {
    var s' := Step(mid, e);
    CallsGrow(mid, e);
    if ReturnedSince(s, mid, PopOf, s.popCalled) {
      ReturnedStaysSo(s, mid, s', PopOf, s.popCalled);
    } else if e == ConsumerStep {
      ConsumerStepCounts(mid);
      if s'.consumer.CIdle? { assert s'.calls[|mid.calls|].request == PopOf; }
    }
  }

  lemma {:induction false} PopRunsOn(s: State, es: seq<Event>)
    requires Inv(s) && !s.consumer.CIdle?
    ensures Inv(Run(s, es)) && PopOn(s, Run(s, es), Count(es, ConsumerStep))
  {
    if es != [] {
      var before, e := es[..|es| - 1], es[|es| - 1];
      PopRunsOn(s, before);
      StepKeepsInv(Run(s, before), e);
      PopGoesOn(s, Run(s, before), Count(before, ConsumerStep), e);
    }
  }

  /** Main result: the same for a pop and the consumer's steps. */
  lemma PopWaitFree(k: nat, slots: seq<Ptr>, es: seq<Event>, more: seq<Event>)
    requires k < 64 && |slots| == Pow2(k)
    requires var s := Run(Init(k, slots), es);
      !s.consumer.CIdle? && Count(more, ConsumerStep) >= PopLeft(s.consumer)
    ensures PopLeft(Run(Init(k, slots), es).consumer) <= 5
    ensures var s := Run(Init(k, slots), es);
      ReturnedSince(s, Run(Init(k, slots), es + more), PopOf, s.popCalled)
  {
    RunKeepsLinInv(k, slots, es);
    PopRunsOn(Run(Init(k, slots), es), more);
    RunConcat(Init(k, slots), es, more);
  }
}
