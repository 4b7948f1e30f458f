/** What the threads around the ring can observe: slots never race, pop results are not
    ambiguous, and how far `spsc_ring_size` can be trusted. */
module RingViews {
  import opened Words
  import opened Ring

  lemma {:induction false} RunKeepsInv(s: State, es: seq<Event>)
    requires Inv(s)
    ensures Inv(Run(s, es))
    ensures s.popped <= Run(s, es).popped && |s.accepted| <= |Run(s, es).accepted|
  {
    if es != [] {
      RunKeepsInv(s, es[..|es| - 1]);
      StepKeepsInv(Run(s, es[..|es| - 1]), es[|es| - 1]);
    }
  }

  /** Main result: whenever the producer is about to write a slot and the consumer is about to
      read one, they are different slots, both inside the array. */
  lemma SlotsNeverRace(k: nat, slots: seq<Ptr>, es: seq<Event>)
    requires k < 64 && |slots| == Pow2(k)
    ensures var s := Run(Init(k, slots), es);
      && (s.producer.PHasRoom? ==> SlotOf(s, s.producer.head) < |s.slots|)
      && (s.consumer.CNonEmpty? ==> SlotOf(s, s.consumer.tail) < |s.slots|)
      && (s.producer.PHasRoom? && s.consumer.CNonEmpty? ==>
            SlotOf(s, s.producer.head) != SlotOf(s, s.consumer.tail))
  {
    var s := Run(Init(k, slots), es);
    RunKeepsLinInv(k, slots, es);
    MaskIsMod(s, |s.accepted|);
    MaskIsMod(s, s.popped);
    if s.producer.PHasRoom? && s.consumer.CNonEmpty? { SlotsDiffer(s.popped, |s.accepted|, s.capacity); }
  }

  /* --- NULL results --- */

  predicate NoNulls(es: seq<Event>)
  {
    forall i :: 0 <= i < |es| ==> es[i] != CallPush(NULL)
  }

  ghost predicate NullFree(s: State)
  {
    && (forall i :: 0 <= i < |s.accepted| ==> s.accepted[i] != NULL)
    && (forall i :: 0 <= i < |s.lin| && s.lin[i].op.Pop? && s.lin[i].op.result.Some? ==>
          s.lin[i].op.result.value != NULL)
    && match s.producer
       case PCalled(x) => x != NULL
       case PGotHead(x, _) => x != NULL
       case PHasRoom(x, _) => x != NULL
       case PWrote(x, _) => x != NULL
       case _ => true
  }

  lemma StepKeepsNullFree(s: State, e: Event)
    requires Inv(s) && NullFree(s) && e != CallPush(NULL)
    ensures NullFree(Step(s, e))
  {
  }

  lemma {:induction false} RunKeepsNullFree(k: nat, slots: seq<Ptr>, es: seq<Event>)
    requires k < 64 && |slots| == Pow2(k) && NoNulls(es)
    ensures NullFree(Run(Init(k, slots), es))
  {
    if es != [] {
      var n := |es| - 1;
      RunKeepsNullFree(k, slots, es[..n]);
      RunKeepsLinInv(k, slots, es[..n]);
      StepKeepsNullFree(Run(Init(k, slots), es[..n]), es[n]);
    }
  }

  /** As long as nobody pushes NULL, a pop returns NULL exactly when it found the queue empty. */
  lemma NullMeansEmpty(k: nat, slots: seq<Ptr>, es: seq<Event>, a: nat)
    requires k < 64 && |slots| == Pow2(k) && NoNulls(es)
    requires a < |Run(Init(k, slots), es).calls|
    ensures var s := Run(Init(k, slots), es);
      && s.calls[a].op < |s.lin|
      && (s.lin[s.calls[a].op].op.Pop? ==> (s.calls[a].result == NULL <==> s.lin[s.calls[a].op].op == Pop(None)))
  {
    RunKeepsLinInv(k, slots, es);
    RunKeepsNullFree(k, slots, es);
  }

  /* --- spsc_ring_size --- */

  /** The size computed from a head loaded in `s` and a tail loaded later, in `s'`. */
  function SizeSeen(s: State, s': State): Word { WordSub(s.head, s'.tail) }

  predicate OnlyConsumer(es: seq<Event>)
  {
    forall i :: 0 <= i < |es| ==> es[i] == CallPop || es[i] == ConsumerStep
  }

  predicate OnlyProducer(es: seq<Event>)
  {
    forall i :: 0 <= i < |es| ==> es[i].CallPush? || es[i] == ProducerStep
  }

  lemma SizeIsDifference(s: State, s': State)
    requires Inv(s) && Inv(s')
    ensures SizeSeen(s, s') == Wrap(|s.accepted| - s'.popped)
  {
    var h, t := |s.accepted|, s'.popped;
    assert s.head as int - s'.tail == h - t + (t / TWO64 - h / TWO64) * TWO64;
    ModShift(h - t, t / TWO64 - h / TWO64, TWO64);
  }

  lemma SizeInRange(s: State, s': State)
    requires Inv(s) && Inv(s') && s'.capacity == s.capacity
    requires s'.popped <= |s.accepted| <= s'.popped + s.capacity
    ensures SizeSeen(s, s') == |s.accepted| - s'.popped
  {
    CountersDifference(|s.accepted|, s'.popped, s.capacity);
  }

  lemma {:induction false} ConsumerKeepsHead(s: State, es: seq<Event>)
    requires Inv(s) && OnlyConsumer(es)
    ensures Run(s, es).accepted == s.accepted
  {
    if es != [] { ConsumerKeepsHead(s, es[..|es| - 1]); }
  }

  lemma {:induction false} ProducerKeepsTail(s: State, es: seq<Event>)
    requires Inv(s) && OnlyProducer(es)
    ensures Run(s, es).popped == s.popped
  {
    if es != [] { ProducerKeepsTail(s, es[..|es| - 1]); }
  }

  /** Called by the producer, whose own steps pause meanwhile, the size is exact at the tail load. */
  lemma SizeForProducer(s: State, es: seq<Event>)
    requires Inv(s) && OnlyConsumer(es)
    ensures Inv(Run(s, es)) && SizeSeen(s, Run(s, es)) == |Queue(Run(s, es))| <= s.capacity
  {
    RunKeepsInv(s, es);
    ConsumerKeepsHead(s, es);
    SizeInRange(s, Run(s, es));
  }

  /** Called by the consumer, the size is exact at the head load. */
  lemma SizeForConsumer(s: State, es: seq<Event>)
    requires Inv(s) && OnlyProducer(es)
    ensures Inv(Run(s, es)) && SizeSeen(s, Run(s, es)) == |Queue(s)| <= s.capacity
  {
    RunKeepsInv(s, es);
    ProducerKeepsTail(s, es);
    SizeInRange(s, Run(s, es));
  }

  /** For any other thread: as long as the pops between its two loads have not overtaken the loaded
      head, the size is the true difference and at most the capacity. Once they have, it exceeds the
      capacity, until they are ahead by nearly 2^64. So a size within the capacity can be trusted. */
  lemma SizeForOthers(s: State, es: seq<Event>)
    requires Inv(s)
    ensures Inv(Run(s, es))
    ensures SizeSeen(s, Run(s, es)) == |s.accepted| - Run(s, es).popped <==> Run(s, es).popped <= |s.accepted|
    ensures Run(s, es).popped <= |s.accepted| ==> SizeSeen(s, Run(s, es)) <= s.capacity
    ensures Run(s, es).popped - |s.accepted| < TWO64 - s.capacity ==>
      (SizeSeen(s, Run(s, es)) <= s.capacity <==> Run(s, es).popped <= |s.accepted|)
  {
    RunKeepsInv(s, es);
    SizeOvertaken(s, Run(s, es));
  }

  lemma SizeOvertaken(s: State, s': State)
    requires Inv(s) && Inv(s') && s.popped <= s'.popped
    ensures SizeSeen(s, s') == |s.accepted| - s'.popped <==> s'.popped <= |s.accepted|
    ensures s'.popped <= |s.accepted| ==> SizeSeen(s, s') <= s.capacity
    ensures s'.popped - |s.accepted| < TWO64 - s.capacity ==>
      (SizeSeen(s, s') <= s.capacity <==> s'.popped <= |s.accepted|)
  {
    SizeIsDifference(s, s');
    WrapExact(|s.accepted| - s'.popped);
  }

  lemma WrapExact(x: int)
    requires x < TWO64
    ensures 0 <= x ==> Wrap(x) == x
    ensures -TWO64 < x < 0 ==> Wrap(x) == x + TWO64
  {
  }

  lemma RunNext(s: State, es: seq<Event>, e: Event)
    requires s.capacity > 0
    ensures Run(s, es + [e]) == Step(Run(s, es), e)
  {
    assert (es + [e])[..|es|] == es;
  }

  /** An uninterrupted push into an empty ring of capacity 1 advances the head. */
  lemma PushAlone(s: State, es: seq<Event>)
    requires s == Init(0, [NULL])
    requires es == [CallPush(7)] + [ProducerStep] + [ProducerStep] + [ProducerStep] + [ProducerStep]
    ensures var s' := Run(s, es); s'.head == 1 && s'.tail == 0 && s'.consumer == CIdle && |s'.slots| == 1
  {
    var p := ProducerStep;
    RunNext(s, [], CallPush(7));
    assert [] + [CallPush(7)] == [CallPush(7)];
    RunNext(s, [CallPush(7)], p);
    RunNext(s, [CallPush(7)] + [p], p);
    RunNext(s, [CallPush(7)] + [p] + [p], p);
    RunNext(s, [CallPush(7)] + [p] + [p] + [p], p);
  }

  /** An uninterrupted pop from it advances the tail. */
  lemma PopAlone(s: State, es: seq<Event>, more: seq<Event>)
    requires s.capacity == 1 && var t := Run(s, es); t.head == 1 && t.tail == 0 && t.consumer == CIdle && |t.slots| == 1
    requires more == es + [CallPop] + [ConsumerStep] + [ConsumerStep] + [ConsumerStep] + [ConsumerStep]
    ensures Run(s, more).tail == 1
  {
    var c := ConsumerStep;
    RunNext(s, es, CallPop);
    RunNext(s, es + [CallPop], c);
    RunNext(s, es + [CallPop] + [c], c);
    RunNext(s, es + [CallPop] + [c] + [c], c);
    RunNext(s, es + [CallPop] + [c] + [c] + [c], c);
  }

  /** And it does happen: one item passes through between the two loads, and the size is 2^64 - 1. */
  lemma SizeUnderflows()
    ensures exists es: seq<Event> :: SizeSeen(Init(0, [NULL]), Run(Init(0, [NULL]), es)) == TWO64 - 1
  {
    var s, p, c := Init(0, [NULL]), ProducerStep, ConsumerStep;
    var push := [CallPush(7)] + [p] + [p] + [p] + [p];
    var both := push + [CallPop] + [c] + [c] + [c] + [c];
    PushAlone(s, push);
    PopAlone(s, push, both);
    assert SizeSeen(s, Run(s, both)) == TWO64 - 1;
  }
}
