/** How many callbacks a request can take. */
module Work {
  import opened Keyspace
  import opened Serial
  import opened Chains
  import opened Engine
  import opened Ownership

  /** The most callbacks one attempt can take, its error callback included. */
  function AttemptCost(c: Ctx): nat
  {
    match c
    case OrderChain(o) => |o.p.lines| + 4
    case PaymentChain(_) => 5
  }

  /** How many callbacks of the attempt lie behind a context that awaits `p`. */
  function Position(c: Ctx, p: Pending): nat
  {
    match p
    case AwaitGet(_, OnWarehouseRead) => 0
    case AwaitGet(_, OnDistrictRead) => if c.OrderChain? then 0 else 1
    case AwaitGet(_, OnCustomerRead) => if c.OrderChain? then 1 else 2
    case AwaitGet(_, OnStockRead) => if c.OrderChain? then 2 + c.o.currentOl else 0
    case AwaitGet(_, _) => 0
    case AwaitCommit => AttemptCost(c) - 2
    case AwaitReport(_) => AttemptCost(c) - 2
    case AwaitOnError => AttemptCost(c) - 1
  }

  ghost predicate Advances(c: Ctx, k: Key, cb: Callback, out: Outcome<Ctx>)
  {
    && AttemptCost(out.ctx) == AttemptCost(c)
    && Position(c, AwaitGet(k, cb)) + 2 <= AttemptCost(c)
    && (!out.action.Respond? ==>
          match cb
          case OnCommit => out.action == HandleError
          case OnErrorRetry => out.action == FirstGet(out.ctx)
          case _ => Position(out.ctx, Await(out.action)) >= Position(c, AwaitGet(k, cb)) + 1)
  }

  /** A read callback moves the chain strictly forward; a commit callback ends it or reports
      the error; an error callback ends it or goes back to the first read. */
  lemma FireAdvances(c: Ctx, k: Key, cb: Callback, r: FutureResult, env: Env)
    requires c.Valid() && Registered(c, cb)
    ensures Advances(c, k, cb, Fire(c, cb, r, env))
  {
    match c
    case OrderChain(o) => OrderAdvances(o, k, cb, r, env);
    case PaymentChain(q) => PaymentAdvances(q, k, cb, r, env);
  }

  lemma OrderAdvances(o: OrderCtx, k: Key, cb: Callback, r: FutureResult, env: Env)
    requires o.Valid() && Registered(OrderChain(o), cb)
    ensures Advances(OrderChain(o), k, cb, Fire(OrderChain(o), cb, r, env))
  {
  }

  lemma PaymentAdvances(q: PaymentCtx, k: Key, cb: Callback, r: FutureResult, env: Env)
    requires Registered(PaymentChain(q), cb)
    ensures Advances(PaymentChain(q), k, cb, Fire(PaymentChain(q), cb, r, env))
  {
  }

  ghost predicate ReadCallback(p: Pending)
  {
    p.AwaitGet? ==> p.cb != OnCommit && p.cb != OnErrorRetry
  }

  /** Work done so far: full attempts for the resets, plus the position in this one. */
  ghost predicate Bounded(sl: Slot, p: Pending)
  {
    ReadCallback(p) && sl.callbacks <= sl.resets * AttemptCost(sl.ctx) + Position(sl.ctx, p)
  }

  ghost predicate WorkBound(s: State)
  {
    && (forall i :: 0 <= i < |s.slots| ==>
          s.slots[i].callbacks <= (s.slots[i].resets + 1) * AttemptCost(s.slots[i].ctx))
    && (forall f :: f in s.ledger.outstanding ==> s.ledger.outstanding[f].slot < |s.slots|)
    && (forall f :: f in s.ledger.outstanding ==>
          Bounded(s.slots[s.ledger.outstanding[f].slot], s.ledger.outstanding[f].pending))
  }

  lemma ContinueBounded(sl: Slot, p: Pending, tr: Tr, out: Outcome<Ctx>, env: Env, n: nat)
    requires Bounded(sl, p) && AttemptCost(out.ctx) == AttemptCost(sl.ctx)
    requires Position(sl.ctx, p) < AttemptCost(sl.ctx)
    requires n == sl.resets || (n == sl.resets + 1 && p.AwaitOnError?)
    requires !out.action.Respond? ==>
      ReadCallback(Await(out.action)) && (n == sl.resets ==> Position(out.ctx, Await(out.action)) > Position(sl.ctx, p))
    ensures var sl' := Continue(sl, tr, out, env).(resets := n);
      && sl'.callbacks <= (n + 1) * AttemptCost(sl'.ctx)
      && (!out.action.Respond? ==> Bounded(sl', Await(out.action)))
  {
    var k := AttemptCost(sl.ctx);
    assert (sl.resets + 1) * k == sl.resets * k + k;
    assert (sl.resets + 2) * k == (sl.resets + 1) * k + k;
  }

  lemma FireBounded(s: State, sl: Slot, p: Pending, fault: Fault, rv: nat, env: Env)
    requires CanFire(s, sl, p, rv) && Bounded(sl, p)
    ensures var sl', a := FireSlot(s, sl, p, fault, rv, env), FireOutcome(s, sl, p, fault, rv, env).action;
      && sl'.callbacks <= (sl'.resets + 1) * AttemptCost(sl'.ctx)
      && (!a.Respond? ==> Bounded(sl', Await(a)))
  {
    match p {
      case AwaitGet(key, cb) =>
        FireAdvances(sl.ctx, key, cb, ReadResult(s, sl.tr, Version(sl.tr, rv), key, fault), env);
      case AwaitReport(ok) =>
        FireAdvances(sl.ctx, Warehouse(0), OnCommit, if ok then Ready else Failed, env);
      case AwaitOnError =>
        FireAdvances(sl.ctx, Warehouse(0), OnErrorRetry, if fault.NoFault? then Ready else Failed, env);
    }
    var n := FireSlot(s, sl, p, fault, rv, env).resets;
    ContinueBounded(sl, p, FireTr(sl, p, fault, rv), FireOutcome(s, sl, p, fault, rv, env), env, n);
  }

  lemma FiredKeepsWorkBound(s: State, f: nat, i: nat, a: Action, sub: Submission, sl: Slot)
    requires Linear(s) && Balanced(s.ledger) && WorkBound(s)
    requires f in s.ledger.outstanding && s.ledger.outstanding[f].slot == i
    requires sl.callbacks <= (sl.resets + 1) * AttemptCost(sl.ctx) && (!a.Respond? ==> Bounded(sl, Await(a)))
    ensures WorkBound(s.(slots := s.slots[i := sl], ledger := Fired(s.ledger, f, i, a, sub)))
  {
    var slots, out := s.slots[i := sl], Fired(s.ledger, f, i, a, sub).outstanding;
    forall g | g in out
      ensures out[g].slot < |slots| && Bounded(slots[out[g].slot], out[g].pending)
    {
      FiredFutures(s.ledger, f, i, a, sub, g);
      if g != s.ledger.created { assert s.ledger.outstanding[g].slot != i; }
    }
  }

  lemma DeliverKeepsWorkBound(s: State, f: nat, fault: Fault, rv: nat, env: Env, sub: Submission)
    requires Linear(s) && Balanced(s.ledger) && WorkBound(s)
    ensures WorkBound(DeliverStep(s, f, fault, rv, env, sub))
  {
    if f in s.ledger.outstanding {
      var Future(i, p) := s.ledger.outstanding[f];
      if CanFire(s, s.slots[i], p, rv) {
        FireBounded(s, s.slots[i], p, fault, rv, env);
        FiredKeepsWorkBound(s, f, i, FireOutcome(s, s.slots[i], p, fault, rv, env).action, sub,
                            FireSlot(s, s.slots[i], p, fault, rv, env));
      }
    }
  }

  lemma StartKeepsWorkBound(s: State, c: Ctx, alloc: bool, create: bool, sub: Submission)
    requires Balanced(s.ledger) && WorkBound(s)
    ensures WorkBound(StartStep(s, c, alloc, create, sub))
  {
    var s', out := StartStep(s, c, alloc, create, sub), s.ledger.outstanding;
    forall g | g in s'.ledger.outstanding
      ensures s'.ledger.outstanding[g].slot < |s'.slots|
      ensures Bounded(s'.slots[s'.ledger.outstanding[g].slot], s'.ledger.outstanding[g].pending)
    {
      if g in out { StartKeepsFuture(s, c, alloc, create, sub, g); }
    }
  }

  lemma DecideKeepsWorkBound(s: State, f: nat, apply: bool, report: bool)
    requires Linear(s) && WorkBound(s)
    ensures WorkBound(DecideStep(s, f, apply, report))
  {
    var s', out := DecideStep(s, f, apply, report), s.ledger.outstanding;
    forall i | 0 <= i < |s'.slots|
      ensures SameWork(s.slots[i], s'.slots[i])
    {
    }
    forall g | g in s'.ledger.outstanding
      ensures s'.ledger.outstanding[g].slot < |s'.slots|
      ensures Bounded(s'.slots[s'.ledger.outstanding[g].slot], s'.ledger.outstanding[g].pending)
    {
      assert Bounded(s.slots[out[g].slot], out[g].pending);
      SameWorkSameBound(s.slots[out[g].slot], s'.slots[out[g].slot], out[g].pending, s'.ledger.outstanding[g].pending);
    }
  }

  predicate SameWork(a: Slot, b: Slot)
  {
    a.ctx == b.ctx && a.callbacks == b.callbacks && a.resets == b.resets
  }

  lemma SameWorkSameBound(a: Slot, b: Slot, p: Pending, q: Pending)
    requires Bounded(a, p) && SameWork(a, b) && (p == q || (p.AwaitCommit? && q.AwaitReport?))
    ensures Bounded(b, q)
  {
  }

  lemma StepKeepsWorkBound(s: State, e: Event)
    requires Linear(s) && Balanced(s.ledger) && WorkBound(s)
    ensures WorkBound(Step(s, e))
  {
    match e
    case Start(c, alloc, create, sub) => StartKeepsWorkBound(s, c, alloc, create, sub);
    case Deliver(f, fault, rv, env, sub) => DeliverKeepsWorkBound(s, f, fault, rv, env, sub);
    case Decide(f, apply, report) => DecideKeepsWorkBound(s, f, apply, report);
  }

  /** Main result: a NewOrder request that was reset `r` times takes at most
      `(r + 1) * (lines + 4)` callbacks, a Payment at most `(r + 1) * 5`. */
  lemma {:induction false} RunsAreBounded(db: Db, es: seq<Event>)
    ensures WorkBound(Run(InitialState(db), es))
  {
    if es != [] {
      var n := |es| - 1;
      RunsAreBounded(db, es[..n]);
      RunsAreLinear(db, es[..n]);
      StepKeepsWorkBound(Run(InitialState(db), es[..n]), es[n]);
    }
  }
}
