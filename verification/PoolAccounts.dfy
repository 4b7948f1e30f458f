/** Where every work item is: no call that got memory is forgotten. */
module PoolAccounts {
  import opened Ring
  import opened Pool

  /** The push of `x` is still going on and has not been accepted. */
  predicate Undecided(s: PoolState, x: Ptr)
  {
    s.dispatcher.Pushing? && s.dispatcher.item == x && !PushAccepted(s)
  }

  /** The dispatcher freed `x`, because the ring was full. */
  predicate Refused(s: PoolState, x: Ptr) { x in s.rejected }

  /** The worker whose turn it was accepted `x`. */
  predicate Accepted(s: PoolState, x: Ptr)
    requires |s.workers| > 0
  {
    x > 0 && x in s.workers[Route(x - 1, |s.workers|)].ring.accepted
  }

  /** The items that got memory are those that are somewhere. */
  ghost predicate Placed(s: PoolState)
    requires |s.workers| > 0
  {
    forall x :: x in s.granted <==> Undecided(s, x) || Refused(s, x) || Accepted(s, x)
  }

  /** Nothing about items has changed. */
  ghost predicate SameItems(s: PoolState, s': PoolState)
  {
    && |s'.workers| == |s.workers| && s'.granted == s.granted && s'.rejected == s.rejected
    && (forall j :: 0 <= j < |s.workers| ==> s'.workers[j].ring.accepted == s.workers[j].ring.accepted)
    && (forall x :: Undecided(s', x) <==> Undecided(s, x))
  }

  lemma SameItemsPlaced(s: PoolState, s': PoolState)
    requires |s.workers| > 0 && Placed(s) && SameItems(s, s')
    ensures Placed(s')
  {
    forall x ensures x in s'.granted <==> Undecided(s', x) || Refused(s', x) || Accepted(s', x) {
      assert x in s.granted <==> Undecided(s, x) || Refused(s, x) || Accepted(s, x);
    }
  }

  lemma DispatchKeepsPlaced(s: PoolState, malloc: bool)
    requires Items(s) && Placed(s)
    ensures Placed(StepDispatch(s, malloc))
  {
    var s' := StepDispatch(s, malloc);
    if s.dispatcher.Ready? && malloc {
      var item := ItemOf(s.calls);
      assert forall j :: 0 <= j < |s.workers| ==> s'.workers[j].ring.accepted == s.workers[j].ring.accepted;
      assert Undecided(s', item);
      forall x ensures x in s'.granted <==> Undecided(s', x) || Refused(s', x) || Accepted(s', x) {
        assert x in s.granted <==> Undecided(s, x) || Refused(s, x) || Accepted(s, x);
      }
    } else {
      SameItemsPlaced(s, s');
    }
  }

  /** A push that has not reached its decision. */
  lemma PushingKeepsPlaced(s: PoolState)
    requires Items(s) && Placed(s) && s.dispatcher.Pushing?
    requires var p := s.workers[s.dispatcher.worker].ring.producer; !p.PReturns? && !p.PWrote?
    ensures Placed(StepDispatcher(s))
  {
    var s', i := StepDispatcher(s), s.dispatcher.worker;
    PushStepEffect(s.workers[i].ring, ProducerStep);
    CarriedOn(s.workers[i].ring, s.dispatcher.item);
    assert forall j :: 0 <= j < |s.workers| ==> s'.workers[j].ring.accepted == s.workers[j].ring.accepted;
    SameItemsPlaced(s, s');
  }

  /** The head store hands the item to the worker. */
  lemma AcceptingKeepsPlaced(s: PoolState)
    requires Items(s) && Placed(s) && s.dispatcher.Pushing?
    requires s.workers[s.dispatcher.worker].ring.producer.PWrote?
    ensures Placed(StepDispatcher(s))
  {
    var s', i, item := StepDispatcher(s), s.dispatcher.worker, s.dispatcher.item;
    PushStepEffect(s.workers[i].ring, ProducerStep);
    CarriedOn(s.workers[i].ring, item);
    assert s'.workers[i].ring.accepted == s.workers[i].ring.accepted + [item];
    assert forall j :: 0 <= j < |s.workers| && j != i ==> s'.workers[j].ring.accepted == s.workers[j].ring.accepted;
    assert PushAccepted(s') && Undecided(s, item) && Accepted(s', item);
    forall x ensures x in s'.granted <==> Undecided(s', x) || Refused(s', x) || Accepted(s', x) {
      assert x in s.granted <==> Undecided(s, x) || Refused(s, x) || Accepted(s, x);
      assert x != item ==> (Accepted(s', x) <==> Accepted(s, x));
    }
  }

  /** The push returns: an accepted item is with its worker, a refused one is freed. */
  lemma ReturningKeepsPlaced(s: PoolState)
    requires Items(s) && Placed(s) && s.dispatcher.Pushing?
    requires s.workers[s.dispatcher.worker].ring.producer.PReturns?
    ensures Placed(StepDispatcher(s))
  {
    var s', i, item := StepDispatcher(s), s.dispatcher.worker, s.dispatcher.item;
    PushStepEffect(s.workers[i].ring, ProducerStep);
    assert forall j :: 0 <= j < |s.workers| ==> s'.workers[j].ring.accepted == s.workers[j].ring.accepted;
    forall x ensures x in s'.granted <==> Undecided(s', x) || Refused(s', x) || Accepted(s', x) {
      assert x in s.granted <==> Undecided(s, x) || Refused(s, x) || Accepted(s, x);
    }
  }

  lemma WorkerKeepsPlaced(s: PoolState, i: nat)
    requires Items(s) && Placed(s) && i < |s.workers|
    ensures Placed(SetWorker(s, i, StepWorker(s.workers[i])))
  {
    WorkerKeepsProducer(s.workers[i]);
    SameItemsPlaced(s, SetWorker(s, i, StepWorker(s.workers[i])));
  }

  lemma DispatcherKeepsPlaced(s: PoolState)
    requires Items(s) && Placed(s)
    ensures Placed(StepDispatcher(s))
  {
    if s.dispatcher.Pushing? {
      match s.workers[s.dispatcher.worker].ring.producer
      case PReturns(_, _) => ReturningKeepsPlaced(s);
      case PWrote(_, _) => AcceptingKeepsPlaced(s);
      case _ => PushingKeepsPlaced(s);
    } else {
      assert forall j :: 0 <= j < |s.workers| ==> StepDispatcher(s).workers[j].ring == s.workers[j].ring;
      SameItemsPlaced(s, StepDispatcher(s));
    }
  }

  lemma {:induction false} RunKeepsPlaced(n: nat, slots: seq<Ptr>, es: seq<PoolEvent>)
    requires n > 0 && |slots| == SPSC_CAPACITY
    ensures Placed(RunPool(StartPool(n, slots), es))
  {
    if es != [] {
      var s := RunPool(StartPool(n, slots), es[..|es| - 1]);
      RunKeepsPlaced(n, slots, es[..|es| - 1]);
      RunKeepsPoolInv(n, slots, es[..|es| - 1]);
      match es[|es| - 1]
      case Dispatch(malloc) => DispatchKeepsPlaced(s, malloc);
      case DispatcherStep => DispatcherKeepsPlaced(s);
      case WorkerStep(i) => if i < |s.workers| { WorkerKeepsPlaced(s, i); }
      case Destroy => SameItemsPlaced(s, StepPool(s, Destroy));
    }
  }

  /** The places exclude each other. */
  lemma PlacedOnce(s: PoolState, x: Ptr)
    requires Items(s)
    ensures !(Undecided(s, x) && Refused(s, x))
    ensures !(Undecided(s, x) && Accepted(s, x))
    ensures !(Refused(s, x) && Accepted(s, x))
  {
    if Undecided(s, x) { assert x == s.calls && Bound(s) == s.calls - 1; }
    if Accepted(s, x) {
      var i := Route(x - 1, |s.workers|);
      assert Routed(s.workers[i].ring.accepted, i, |s.workers|, Bound(s));
    }
  }

  /** Main result: in every run each item that got memory is in exactly one place - in the hands of
      the dispatcher, freed by it, or accepted by the worker whose turn it was - and nothing else
      is in any of them. */
  lemma EveryItemPlaced(n: nat, slots: seq<Ptr>, es: seq<PoolEvent>, x: Ptr)
    requires n > 0 && |slots| == SPSC_CAPACITY
    ensures var s := RunPool(StartPool(n, slots), es);
      var places := (if Undecided(s, x) then 1 else 0) + (if Refused(s, x) then 1 else 0)
                    + (if Accepted(s, x) then 1 else 0);
      places == if x in s.granted then 1 else 0
  {
    var s := RunPool(StartPool(n, slots), es);
    RunKeepsPlaced(n, slots, es);
    RunKeepsPoolInv(n, slots, es);
    PlacedOnce(s, x);
    assert x in s.granted <==> Undecided(s, x) || Refused(s, x) || Accepted(s, x);
  }
}
