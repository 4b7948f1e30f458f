/** Progress of the worker pool: under every interleaving a worker that is not told to stop gets
    through the items of its ring, a dispatch is decided, and a worker told to stop exits. */
module PoolProgress {
  import opened Ring
  import opened RingProgress
  import opened Pool
  import opened PoolAccounts

  /* --- One worker --- */

  /** The own steps after which a worker that has an item to come has freed it: eight from the loop
      test, one more if it is just coming back from an empty ring. */
  function ItemLeft(w: Worker): nat
  {
    match w.thread
    case Testing => 8
    case Popping =>
      (match w.ring.consumer
       case CReturns(x, _) => if x == NULL then 9 else 3
       case CRead(_, _) => 4
       case CNonEmpty(_) => 5
       case CGotTail(_) => 6
       case CCalled => 7
       case CIdle => 0)
    case Holding(_) => 2
    case Ran(_) => 1
    case Exited => 0
  }

  /** The own steps after which `target` items have been freed. */
  function WorkLeft(w: Worker, target: nat): nat
  {
    if target <= |w.freed| then 0 else ItemLeft(w) + 8 * (target - |w.freed| - 1)
  }

  /** What one own step does to a worker with work to do. */
  ghost predicate Advances(w: Worker, w': Worker)
  {
    && w'.ring.accepted == w.ring.accepted && w'.running == w.running
    && if w.thread.Ran? then w'.thread.Testing? && |w'.freed| == |w.freed| + 1
       else !w'.thread.Exited? && w'.freed == w.freed && ItemLeft(w') + 1 == ItemLeft(w)
  }

  lemma TestAdvances(w: Worker)
    requires Conserved(w) && w.running && w.thread.Testing?
    ensures Advances(w, StepWorker(w))
  {
  }

  lemma PopAdvances(w: Worker)
    requires Conserved(w) && w.thread.Popping? && |w.freed| < |w.ring.accepted|
    ensures Advances(w, StepWorker(w))
  {
    Difference(w.ring);
    MaskIsMod(w.ring, w.ring.popped);
    ConsumerStepEffect(w.ring);
    if w.ring.consumer.CGotTail? {
      assert |w.executed| == w.ring.popped && InHand(w) == [];
    }
  }

  lemma OwnStepAdvances(w: Worker)
    requires Conserved(w) && w.running && !w.thread.Exited? && |w.freed| < |w.ring.accepted|
    ensures Advances(w, StepWorker(w))
  {
    match w.thread
    case Testing => TestAdvances(w);
    case Popping => PopAdvances(w);
    case _ =>
  }

  /** Own steps only. */
  function Steps(w: Worker, n: nat): (w': Worker)
    requires w.ring.capacity > 0
    ensures w'.ring.capacity == w.ring.capacity
  {
    if n == 0 then w else StepWorker(Steps(w, n - 1))
  }

  /** After `n` uninterrupted own steps, fewer than an item takes. */
  ghost predicate OnTheWay(w: Worker, w': Worker, n: nat)
  {
    && Conserved(w') && w'.ring.accepted == w.ring.accepted && w'.running
    && !w'.thread.Exited? && w'.freed == w.freed && ItemLeft(w') + n == ItemLeft(w)
  }

  lemma {:induction false} StepsOnTheWay(w: Worker, n: nat)
    requires Conserved(w) && w.running && !w.thread.Exited? && |w.freed| < |w.ring.accepted|
    requires n < ItemLeft(w)
    ensures OnTheWay(w, Steps(w, n), n)
  {
    if n > 0 {
      StepsOnTheWay(w, n - 1);
      OnTheWayStep(w, Steps(w, n - 1), n - 1);
    }
  }

  lemma OnTheWayStep(w: Worker, v: Worker, n: nat)
    requires OnTheWay(w, v, n) && |w.freed| < |w.ring.accepted| && n + 1 < ItemLeft(w)
    ensures OnTheWay(w, StepWorker(v), n + 1)
  {
    OwnStepAdvances(v);
    WorkerKeepsConserved(v);
  }

  /** A worker at its loop test has done everything it took. */
  lemma TestingIsClear(w: Worker)
    requires Conserved(w) && w.thread.Testing?
    ensures w.freed == w.executed == w.ring.accepted[..w.ring.popped]
  {
  }

  /** Left alone, a worker that finds its flag set and its ring not empty is back at the test after
      eight steps, has executed and freed exactly the oldest item, and has left the others. */
  lemma TurnExecutes(w: Worker)
    requires Conserved(w) && w.running && w.thread.Testing? && Queue(w.ring) != []
    ensures var w' := Steps(w, 8);
      && Conserved(w') && w'.running && w'.thread.Testing?
      && w'.executed == w.executed + [Queue(w.ring)[0]] && w'.freed == w'.executed
      && Queue(w'.ring) == Queue(w.ring)[1..]
  {
    TestingIsClear(w);
    StepsOnTheWay(w, 7);
    OwnStepAdvances(Steps(w, 7));
    WorkerKeepsConserved(Steps(w, 7));
    TestingIsClear(Steps(w, 8));
  }

  /** With an empty ring it is back after four, and nothing has happened. */
  lemma TurnYields(w: Worker)
    requires Conserved(w) && w.running && w.thread.Testing? && Queue(w.ring) == []
    ensures var w' := Steps(w, 4);
      && Conserved(w') && w'.running && w'.thread.Testing?
      && w'.executed == w.executed && w'.freed == w.freed && Queue(w'.ring) == []
  {
    Difference(w.ring);
    var a := StepWorker(w);
    var b := StepWorker(a);
    var c := StepWorker(b);
    WorkerKeepsConserved(w);
    WorkerKeepsConserved(a);
    WorkerKeepsConserved(b);
    WorkerKeepsConserved(c);
    assert Steps(w, 0) == w && Steps(w, 1) == a && Steps(w, 2) == b && Steps(w, 3) == c;
  }

  /** `n` turns of the loop of `worker_thread`. */
  ghost function Turns(w: Worker, n: nat): (w': Worker)
    requires Conserved(w)
    ensures Conserved(w')
  {
    if n == 0 then w
    else
      var v := Turns(w, n - 1);
      var w' := Steps(v, if Queue(v.ring) == [] then 4 else 8);
      StepsConserve(v, if Queue(v.ring) == [] then 4 else 8);
      w'
  }

  lemma {:induction false} StepsConserve(w: Worker, n: nat)
    requires Conserved(w)
    ensures Conserved(Steps(w, n))
  {
    if n > 0 {
      StepsConserve(w, n - 1);
      WorkerKeepsConserved(Steps(w, n - 1));
    }
  }

  /** What `n` turns come to. */
  ghost predicate Turned(w: Worker, w': Worker, n: nat)
    requires w.ring.popped <= |w.ring.accepted|
  {
    var q := Queue(w.ring);
    var m := if n < |q| then n else |q|;
    && w'.ring.popped <= |w'.ring.accepted| && w'.running && w'.thread.Testing?
    && w'.freed == w'.executed == w.executed + q[..m]
    && Queue(w'.ring) == q[m..]
  }

  lemma TurnedOn(w: Worker, v: Worker, w': Worker, n: nat)
    requires w.ring.popped <= |w.ring.accepted| && n > 0 && Turned(w, v, n - 1)
    requires w'.ring.popped <= |w'.ring.accepted|
    requires w'.running && w'.thread.Testing? && w'.freed == w'.executed
    requires if Queue(v.ring) == [] then w'.executed == v.executed && Queue(w'.ring) == []
             else w'.executed == v.executed + [Queue(v.ring)[0]] && Queue(w'.ring) == Queue(v.ring)[1..]
    ensures Turned(w, w', n)
  {
    var q := Queue(w.ring);
    if n <= |q| {
      assert q[..n] == q[..n - 1] + [q[n - 1]];
    }
  }

  /** Main result, and what `WorkerPool.WorkerThread` promises: in `n` turns a worker left alone
      executes and frees the `n` oldest items of its ring, or all of them if there are fewer. */
  lemma {:induction false} TurnsExecute(w: Worker, n: nat)
    requires Conserved(w) && w.running && w.thread.Testing?
    ensures Turned(w, Turns(w, n), n)
  {
    if n == 0 {
      TestingIsClear(w);
    } else {
      TurnsExecute(w, n - 1);
      NextTurn(w, Turns(w, n - 1), n);
    }
  }

  lemma NextTurn(w: Worker, v: Worker, n: nat)
    requires w.ring.popped <= |w.ring.accepted| && Conserved(v) && n > 0 && Turned(w, v, n - 1)
    ensures Turned(w, Steps(v, if Queue(v.ring) == [] then 4 else 8), n)
  {
    TurnDone(v);
    TurnedOn(w, v, Steps(v, if Queue(v.ring) == [] then 4 else 8), n);
  }

  lemma TurnDone(v: Worker)
    requires Conserved(v) && v.running && v.thread.Testing?
    ensures var w' := Steps(v, if Queue(v.ring) == [] then 4 else 8);
      && Conserved(w') && w'.running && w'.thread.Testing? && w'.freed == w'.executed
      && if Queue(v.ring) == [] then w'.executed == v.executed && Queue(w'.ring) == []
         else w'.executed == v.executed + [Queue(v.ring)[0]] && Queue(w'.ring) == Queue(v.ring)[1..]
  {
    if Queue(v.ring) == [] {
      TestingIsClear(v);
      TurnYields(v);
    } else {
      TurnExecutes(v);
    }
  }

  /* --- A worker among others --- */

  /** What other threads may do to a worker: append to its ring, clear its flag. */
  ghost predicate Disturbed(w: Worker, w': Worker)
  {
    && w'.thread == w.thread && w'.executed == w.executed && w'.freed == w.freed
    && w'.ring.consumer == w.ring.consumer
    && w.ring.accepted <= w'.ring.accepted && (w'.running ==> w.running)
  }

  lemma PushDisturbs(w: Worker, e: Event)
    requires w.ring.capacity > 0 && (e == ProducerStep || (e.CallPush? && !w.ring.producer.PWrote?))
    ensures Disturbed(w, w.(ring := Ring.Step(w.ring, e)))
  {
    PushStepEffect(w.ring, e);
  }

  lemma OthersDisturb(s: PoolState, e: PoolEvent, i: nat)
    requires Items(s) && i < |s.workers| && e != WorkerStep(i)
    ensures Disturbed(s.workers[i], StepPool(s, e).workers[i])
  {
    match e
    case Dispatch(malloc) =>
      if s.dispatcher.Ready? && malloc && i == Route(s.calls, |s.workers|) {
        PushDisturbs(s.workers[i], CallPush(ItemOf(s.calls)));
      }
    case DispatcherStep =>
      if s.dispatcher.Pushing? && i == s.dispatcher.worker { PushDisturbs(s.workers[i], ProducerStep); }
    case _ =>
  }

  /** A worker whose flag is set has not exited. */
  ghost predicate Flags(s: PoolState)
  {
    forall i :: 0 <= i < |s.workers| && s.workers[i].running ==> !s.workers[i].thread.Exited?
  }

  lemma OwnStepKeepsFlag(w: Worker)
    requires w.ring.capacity > 0 && (w.running ==> !w.thread.Exited?)
    ensures var w' := StepWorker(w); w'.running == w.running && (w'.running ==> !w'.thread.Exited?)
  {
  }

  lemma StepKeepsFlags(s: PoolState, e: PoolEvent)
    requires Items(s) && Flags(s)
    ensures Flags(StepPool(s, e))
  {
    var s' := StepPool(s, e);
    forall i | 0 <= i < |s'.workers| && s'.workers[i].running ensures !s'.workers[i].thread.Exited? {
      if e == WorkerStep(i) { OwnStepKeepsFlag(s.workers[i]); } else { OthersDisturb(s, e, i); }
    }
  }

  ghost predicate Good(s: PoolState) { PoolInv(s) && Flags(s) }

  lemma {:induction false} RunsAreGood(n: nat, slots: seq<Ptr>, es: seq<PoolEvent>)
    requires n > 0 && |slots| == SPSC_CAPACITY
    ensures Good(RunPool(StartPool(n, slots), es))
  {
    RunKeepsPoolInv(n, slots, es);
    if es != [] {
      RunsAreGood(n, slots, es[..|es| - 1]);
      StepKeepsFlags(RunPool(StartPool(n, slots), es[..|es| - 1]), es[|es| - 1]);
    }
  }

  /** Worker `w` after `n` own steps and any others: its flag is cleared, or its work has shrunk. */
  ghost predicate Worked(w: Worker, w': Worker, target: nat, n: nat)
  {
    && w.ring.accepted <= w'.ring.accepted
    && (w'.running ==> WorkLeft(w', target) == 0 || WorkLeft(w', target) + n <= WorkLeft(w, target))
  }

  lemma OwnStepWorks(w: Worker, v: Worker, target: nat, n: nat)
    requires Conserved(v) && (v.running ==> !v.thread.Exited?)
    requires target <= |w.ring.accepted| && Worked(w, v, target, n)
    ensures Worked(w, StepWorker(v), target, n + 1)
  {
    var v' := StepWorker(v);
    assert v'.ring.accepted == v.ring.accepted && v'.running == v.running && |v.freed| <= |v'.freed|;
    if v.running && |v.freed| < target {
      OwnStepAdvances(v);
    }
  }

  lemma OtherStepWorks(w: Worker, v: Worker, v': Worker, target: nat, n: nat)
    requires Worked(w, v, target, n) && Disturbed(v, v')
    ensures Worked(w, v', target, n)
  {
  }

  lemma {:induction false} RunWorks(s: PoolState, es: seq<PoolEvent>, i: nat, target: nat)
    requires Good(s) && i < |s.workers| && target <= |s.workers[i].ring.accepted|
    ensures Good(RunPool(s, es)) && Worked(s.workers[i], RunPool(s, es).workers[i], target, Count(es, WorkerStep(i)))
  {
    if es != [] {
      var before, e := es[..|es| - 1], es[|es| - 1];
      var mid := RunPool(s, before);
      RunWorks(s, before, i, target);
      StepKeepsPoolInv(mid, e);
      StepKeepsFlags(mid, e);
      StepWorks(s.workers[i], mid, e, i, target, Count(before, WorkerStep(i)));
    }
  }

  lemma StepWorks(w: Worker, s: PoolState, e: PoolEvent, i: nat, target: nat, n: nat)
    requires Good(s) && i < |s.workers| && target <= |w.ring.accepted| && Worked(w, s.workers[i], target, n)
    ensures Worked(w, StepPool(s, e).workers[i], target, n + if e == WorkerStep(i) then 1 else 0)
  {
    if e == WorkerStep(i) {
      OwnStepWorks(w, s.workers[i], target, n);
    } else {
      OthersDisturb(s, e, i);
      OtherStepWorks(w, s.workers[i], StepPool(s, e).workers[i], target, n);
    }
  }

  lemma {:induction false} RunPoolConcat(s: PoolState, es: seq<PoolEvent>, more: seq<PoolEvent>)
    requires |s.workers| > 0 && forall i :: 0 <= i < |s.workers| ==> s.workers[i].ring.capacity > 0
    ensures RunPool(s, es + more) == RunPool(RunPool(s, es), more)
  {
    if more == [] {
      assert es + more == es;
    } else {
      var all, before := es + more, more[..|more| - 1];
      RunPoolConcat(s, es, before);
      assert all[..|all| - 1] == es + before && all[|all| - 1] == more[|more| - 1];
      assert RunPool(s, all) == StepPool(RunPool(s, es + before), more[|more| - 1]);
    }
  }

  lemma WorkIsDone(w: Worker, w': Worker, target: nat, n: nat)
    requires Conserved(w') && w'.running && !w'.thread.Exited? && Worked(w, w', target, n)
    requires target <= |w.ring.accepted| && n >= 8 * (target - |w.freed|) + if w.thread.Testing? then 0 else 1
    ensures target <= |w'.executed| && target <= |w'.freed|
    ensures w'.freed[..target] == w'.executed[..target] == w.ring.accepted[..target]
  {
    assert WorkLeft(w', target) == 0;
    DoneInOrder(w, w', target);
  }

  lemma DoneInOrder(w: Worker, w': Worker, target: nat)
    requires Conserved(w') && w.ring.accepted <= w'.ring.accepted && target <= |w.ring.accepted|
    requires target <= |w'.freed|
    ensures target <= |w'.executed| && w'.freed[..target] == w'.executed[..target] == w.ring.accepted[..target]
  {
    assert forall a :: 0 <= a < target ==> w'.freed[a] == w'.executed[a] == w'.ring.accepted[a] == w.ring.accepted[a];
  }

  /** Main result: from any state of any run, whatever the other threads do, a worker whose flag is
      still set has executed and freed the first `target` of the items its ring had accepted once it
      has taken eight steps for each of them that was left, and one more if it was not at its test. */
  lemma WorkersProgress(n: nat, slots: seq<Ptr>, es: seq<PoolEvent>, more: seq<PoolEvent>, i: nat, target: nat)
    requires n > 0 && |slots| == SPSC_CAPACITY && i < n
    requires var w := RunPool(StartPool(n, slots), es).workers[i];
      && target <= |w.ring.accepted|
      && Count(more, WorkerStep(i)) >= 8 * (target - |w.freed|) + if w.thread.Testing? then 0 else 1
    requires RunPool(StartPool(n, slots), es + more).workers[i].running
    ensures var w, w' := RunPool(StartPool(n, slots), es).workers[i],
                         RunPool(StartPool(n, slots), es + more).workers[i];
      && target <= |w'.executed| && target <= |w'.freed|
      && w'.freed[..target] == w'.executed[..target] == w.ring.accepted[..target]
  {
    var s := RunPool(StartPool(n, slots), es);
    RunsAreGood(n, slots, es);
    RunWorks(s, more, i, target);
    RunPoolConcat(StartPool(n, slots), es, more);
    WorkIsDone(s.workers[i], RunPool(s, more).workers[i], target, Count(more, WorkerStep(i)));
  }

  /* --- Stopping --- */

  /** The most own steps before a worker whose flag is cleared has exited. */
  function StopLeft(w: Worker): nat
  {
    match w.thread
    case Testing => 1
    case Popping =>
      (match w.ring.consumer
       case CReturns(x, _) => if x == NULL then 2 else 4
       case CRead(_, _) => 5
       case CNonEmpty(_) => 6
       case CGotTail(_) => 7
       case CCalled => 8
       case CIdle => 0)
    case Holding(_) => 3
    case Ran(_) => 2
    case Exited => 0
  }

  lemma OwnStepStops(w: Worker)
    requires Conserved(w) && !w.running
    ensures var w' := StepWorker(w);
      !w'.running && if w.thread.Exited? then w' == w else StopLeft(w') < StopLeft(w)
  {
    if w.thread.Popping? {
      MaskIsMod(w.ring, w.ring.popped);
      ConsumerStepEffect(w.ring);
    }
  }

  /** Worker `w`, told to stop, after `n` own steps. */
  ghost predicate Stops(w: Worker, w': Worker, n: nat)
  {
    !w'.running && (StopLeft(w') == 0 || StopLeft(w') + n <= StopLeft(w))
  }

  lemma StepStops(w: Worker, s: PoolState, e: PoolEvent, i: nat, n: nat)
    requires PoolInv(s) && i < |s.workers| && Stops(w, s.workers[i], n)
    ensures Stops(w, StepPool(s, e).workers[i], n + if e == WorkerStep(i) then 1 else 0)
  {
    if e == WorkerStep(i) { OwnStepStops(s.workers[i]); } else { OthersDisturb(s, e, i); }
  }

  lemma {:induction false} RunStops(s: PoolState, es: seq<PoolEvent>, i: nat)
    requires PoolInv(s) && i < |s.workers| && !s.workers[i].running
    ensures PoolInv(RunPool(s, es)) && Stops(s.workers[i], RunPool(s, es).workers[i], Count(es, WorkerStep(i)))
  {
    if es != [] {
      var before, e := es[..|es| - 1], es[|es| - 1];
      RunStops(s, before, i);
      StepKeepsPoolInv(RunPool(s, before), e);
      StepStops(s.workers[i], RunPool(s, before), e, i, Count(before, WorkerStep(i)));
    }
  }

  lemma HasStopped(w: Worker, w': Worker, n: nat)
    requires Books(w') && Stops(w, w', n) && n >= 8
    ensures w'.thread.Exited?
  {
  }

  /** Main result: once `worker_pool_destroy` has cleared its flag, a worker exits within eight steps
      of its own, so that the join ends. */
  lemma WorkersStop(n: nat, slots: seq<Ptr>, es: seq<PoolEvent>, more: seq<PoolEvent>, i: nat)
    requires n > 0 && |slots| == SPSC_CAPACITY && i < n
    requires !RunPool(StartPool(n, slots), es).workers[i].running && Count(more, WorkerStep(i)) >= 8
    ensures RunPool(StartPool(n, slots), es + more).workers[i].thread.Exited?
  {
    var s := RunPool(StartPool(n, slots), es);
    RunKeepsPoolInv(n, slots, es);
    RunStops(s, more, i);
    RunPoolConcat(StartPool(n, slots), es, more);
    HasStopped(s.workers[i], RunPool(s, more).workers[i], Count(more, WorkerStep(i)));
  }

  /* --- Dispatching --- */

  /** The dispatcher still has the push of `x` before it, with at most `5 - m` steps; or that call
      has returned. */
  ghost predicate DispatchOn(s: PoolState, i: nat, x: Ptr, m: nat)
  {
    && i < |s.workers| && x <= s.calls
    && if s.dispatcher == Pushing(i, x) then PushLeft(s.workers[i].ring.producer) + m <= 5
       else !(s.dispatcher.Pushing? && s.dispatcher.item == x)
  }

  lemma DispatchGoesOn(s: PoolState, e: PoolEvent, i: nat, x: Ptr, m: nat)
    requires PoolInv(s) && DispatchOn(s, i, x, m)
    ensures DispatchOn(StepPool(s, e), i, x, m + if e == DispatcherStep then 1 else 0)
  {
    match e
    case DispatcherStep =>
      if s.dispatcher == Pushing(i, x) { ProducerStepCounts(s.workers[i].ring); }
    case WorkerStep(j) => if j < |s.workers| { WorkerKeepsProducer(s.workers[j]); }
    case _ =>
  }

  lemma {:induction false} DispatchRunsOn(s: PoolState, es: seq<PoolEvent>, i: nat, x: Ptr)
    requires PoolInv(s) && DispatchOn(s, i, x, 0)
    ensures PoolInv(RunPool(s, es)) && DispatchOn(RunPool(s, es), i, x, Count(es, DispatcherStep))
  {
    if es != [] {
      var before, e := es[..|es| - 1], es[|es| - 1];
      DispatchRunsOn(s, before, i, x);
      StepKeepsPoolInv(RunPool(s, before), e);
      DispatchGoesOn(RunPool(s, before), e, i, x, Count(before, DispatcherStep));
    }
  }

  lemma RunPoolFirst(s: PoolState, e: PoolEvent, more: seq<PoolEvent>)
    requires |s.workers| > 0 && forall i :: 0 <= i < |s.workers| ==> s.workers[i].ring.capacity > 0
    ensures RunPool(s, [e] + more) == RunPool(StepPool(s, e), more)
  {
    RunPoolConcat(s, [e], more);
    assert RunPool(s, [e]) == StepPool(RunPool(s, []), e);
  }

  lemma {:induction false} GrantedStays(s: PoolState, es: seq<PoolEvent>)
    requires |s.workers| > 0 && forall i :: 0 <= i < |s.workers| ==> s.workers[i].ring.capacity > 0
    ensures s.granted <= RunPool(s, es).granted
  {
    if es != [] { GrantedStays(s, es[..|es| - 1]); }
  }

  /** Main result: from any state of any run, a dispatch that gets memory has returned after five
      steps of the dispatcher, whatever the workers do; its item is then with the worker whose turn
      it was, or freed, and not both. */
  lemma DispatchDecides(n: nat, slots: seq<Ptr>, es: seq<PoolEvent>, more: seq<PoolEvent>)
    requires n > 0 && |slots| == SPSC_CAPACITY
    requires RunPool(StartPool(n, slots), es).dispatcher.Ready? && Count(more, DispatcherStep) >= 5
    ensures var s, s' := RunPool(StartPool(n, slots), es),
                         RunPool(StartPool(n, slots), es + ([Dispatch(true)] + more));
      var x := ItemOf(s.calls);
      && !(s'.dispatcher.Pushing? && s'.dispatcher.item == x)
      && (Accepted(s', x) <==> !Refused(s', x))
  {
    var start, later := StartPool(n, slots), [Dispatch(true)] + more;
    var s := RunPool(start, es);
    RunKeepsPoolInv(n, slots, es);
    RunPoolConcat(start, es, later);
    DispatchReturns(s, more);
    EveryItemPlaced(n, slots, es + later, ItemOf(s.calls));
  }

  lemma DispatchReturns(s: PoolState, more: seq<PoolEvent>)
    requires PoolInv(s) && s.dispatcher.Ready? && Count(more, DispatcherStep) >= 5
    ensures var s', x := RunPool(s, [Dispatch(true)] + more), ItemOf(s.calls);
      !(s'.dispatcher.Pushing? && s'.dispatcher.item == x) && x in s'.granted
  {
    var s1, i, x := StepPool(s, Dispatch(true)), Route(s.calls, |s.workers|), ItemOf(s.calls);
    StepKeepsPoolInv(s, Dispatch(true));
    RunPoolFirst(s, Dispatch(true), more);
    DispatchRunsOn(s1, more, i, x);
    GrantedStays(s1, more);
    assert x in s1.granted;
    HasReturned(RunPool(s1, more), i, x, Count(more, DispatcherStep));
  }

  lemma HasReturned(s: PoolState, i: nat, x: Ptr, m: nat)
    requires |s.workers| > 0 && Dispatching(s) && DispatchOn(s, i, x, m) && m >= 5
    ensures !(s.dispatcher.Pushing? && s.dispatcher.item == x)
  {
  }

  /* --- A dispatch left alone --- */

  predicate Room(r: Ring.State) { |r.accepted| < r.popped + r.capacity }

  /** A push of `x` into ring `r`, `k` steps after its call. */
  ghost predicate OnCourse(r: Ring.State, v: Ring.State, x: Ptr, k: nat)
  {
    && v.popped == r.popped && v.capacity == r.capacity
    && v.accepted == r.accepted + (if k == 4 then [x] else [])
    && match k
       case 0 => v.producer == PCalled(x)
       case 1 => v.producer.PGotHead? && v.producer.item == x
       case 2 =>
         if Room(r) then v.producer.PHasRoom? && v.producer.item == x else v.producer.PReturns? && !v.producer.ok
       case 3 => Room(r) && v.producer.PWrote? && v.producer.item == x
       case 4 => Room(r) && v.producer.PReturns? && v.producer.ok
       case _ => false
  }

  lemma CourseStep(r: Ring.State, v: Ring.State, x: Ptr, k: nat)
    requires Inv(v) && OnCourse(r, v, x, k) && !v.producer.PReturns?
    ensures OnCourse(r, Ring.Step(v, ProducerStep), x, k + 1)
  {
    Difference(v);
    MaskIsMod(v, |v.accepted|);
  }

  /** The dispatcher thread alone, `m` steps into a dispatch. */
  function Alone(s: PoolState, m: nat): (s': PoolState)
    requires |s.workers| > 0 && forall i :: 0 <= i < |s.workers| ==> s.workers[i].ring.capacity > 0
    ensures |s'.workers| == |s.workers| && forall i :: 0 <= i < |s.workers| ==> s'.workers[i].ring.capacity > 0
  {
    if m == 0 then StepDispatch(s, true) else StepDispatcher(Alone(s, m - 1))
  }

  /** The state `k` steps into it, before the push returns. */
  ghost predicate AloneOn(s: PoolState, t: PoolState, k: nat)
    requires |s.workers| > 0
  {
    var i, x := Route(s.calls, |s.workers|), ItemOf(s.calls);
    && PoolInv(t) && |t.workers| == |s.workers| && t.dispatcher == Pushing(i, x)
    && t.workers == s.workers[i := s.workers[i].(ring := t.workers[i].ring)]
    && OnCourse(s.workers[i].ring, t.workers[i].ring, x, k)
    && t.rejected == s.rejected && t.calls == s.calls + 1 && t.granted == s.granted + [x]
  }

  lemma AloneStep(s: PoolState, t: PoolState, k: nat)
    requires |s.workers| > 0 && k > 0 && AloneOn(s, t, k - 1)
    requires !t.workers[Route(s.calls, |s.workers|)].ring.producer.PReturns?
    ensures AloneOn(s, StepDispatcher(t), k)
  {
    var i := Route(s.calls, |s.workers|);
    StepKeepsPoolInv(t, DispatcherStep);
    CourseStep(s.workers[i].ring, t.workers[i].ring, ItemOf(s.calls), k - 1);
  }

  lemma AloneStarts(s: PoolState)
    requires PoolInv(s) && s.dispatcher.Ready?
    ensures AloneOn(s, Alone(s, 0), 0)
  {
    StepKeepsPoolInv(s, Dispatch(true));
  }

  lemma {:induction false} AloneReaches(s: PoolState, k: nat)
    requires PoolInv(s) && s.dispatcher.Ready?
    requires k <= if Room(s.workers[Route(s.calls, |s.workers|)].ring) then 4 else 2
    ensures AloneOn(s, Alone(s, k), k)
  {
    if k == 0 {
      AloneStarts(s);
    } else {
      AloneReaches(s, k - 1);
      AloneStep(s, Alone(s, k - 1), k);
    }
  }

  lemma {:induction false} AloneStays(s: PoolState, k: nat, m: nat)
    requires |s.workers| > 0 && forall i :: 0 <= i < |s.workers| ==> s.workers[i].ring.capacity > 0
    requires k <= m && Alone(s, k).dispatcher.Ready?
    ensures Alone(s, m) == Alone(s, k)
  {
    if k < m { AloneStays(s, k, m - 1); }
  }

  /** Main result, and what `WorkerPool.Dispatch` promises: a dispatch left alone for five steps or
      more has returned; with room in the ring of the worker whose turn it is, its item is at the
      end of that ring; with a full ring, it is freed; nothing else has changed. */
  lemma DispatchAlone(s: PoolState, m: nat)
    requires PoolInv(s) && s.dispatcher.Ready? && m >= 5
    ensures var s', i, x := Alone(s, m), Route(s.calls, |s.workers|), ItemOf(s.calls);
      var r, r' := s.workers[i].ring, s'.workers[i].ring;
      && s'.dispatcher.Ready? && s'.calls == s.calls + 1 && s'.granted == s.granted + [x]
      && s'.workers == s.workers[i := s.workers[i].(ring := r')]
      && r'.popped == r.popped <= |r.accepted| <= |r'.accepted|
      && (if |Queue(r)| < SPSC_CAPACITY then Queue(r') == Queue(r) + [x] && s'.rejected == s.rejected
          else Queue(r') == Queue(r) && s'.rejected == s.rejected + [x])
  {
    var i := Route(s.calls, |s.workers|);
    var k := if Room(s.workers[i].ring) then 4 else 2;
    assert Conserved(s.workers[i]);
    AloneReaches(s, k);
    AloneReturns(s, Alone(s, k), k);
    AloneStays(s, k + 1, m);
  }

  lemma AloneReturns(s: PoolState, t: PoolState, k: nat)
    requires |s.workers| > 0 && AloneOn(s, t, k)
    requires var r := s.workers[Route(s.calls, |s.workers|)].ring;
      r.popped <= |r.accepted| && r.capacity == SPSC_CAPACITY && k == if Room(r) then 4 else 2
    ensures var s', i, x := StepDispatcher(t), Route(s.calls, |s.workers|), ItemOf(s.calls);
      var r, r' := s.workers[i].ring, s'.workers[i].ring;
      && s'.dispatcher.Ready? && s'.calls == s.calls + 1 && s'.granted == s.granted + [x]
      && s'.workers == s.workers[i := s.workers[i].(ring := r')]
      && r'.popped == r.popped <= |r.accepted| <= |r'.accepted|
      && (if |Queue(r)| < SPSC_CAPACITY then Queue(r') == Queue(r) + [x] && s'.rejected == s.rejected
          else Queue(r') == Queue(r) && s'.rejected == s.rejected + [x])
  {
    var i := Route(s.calls, |s.workers|);
    PushStepEffect(t.workers[i].ring, ProducerStep);
    QueueAfter(s.workers[i].ring, t.workers[i].ring, StepDispatcher(t).workers[i].ring, ItemOf(s.calls), k);
  }

  lemma QueueAfter(r: Ring.State, v: Ring.State, r': Ring.State, x: Ptr, k: nat)
    requires r.popped <= |r.accepted| && OnCourse(r, v, x, k) && k == if Room(r) then 4 else 2
    requires ProducerEffect(v, r')
    ensures r'.popped == r.popped <= |r'.accepted|
    ensures Queue(r') == Queue(r) + if Room(r) then [x] else []
  {
  }
}
