/** Whose commits are in the log: every committed transaction carries the parameters of the
    request it is booked on, whatever happened in between. */
module Attribution {
  import opened Serial
  import opened Chains
  import opened Engine
  import opened Ownership
  import opened ExactlyOnce

  /** The requests of a run, in order of arrival. */
  ghost function Arrived(es: seq<Event>): seq<Ctx>
  {
    if es == [] then []
    else
      var e, before := es[|es| - 1], Arrived(es[..|es| - 1]);
      if e.Start? && Initial(e.ctx) then before + [e.ctx] else before
  }

  /** Context `c` still has the parameters of request `a`. */
  predicate SameParams(c: Ctx, a: Ctx)
  {
    match (c, a)
    case (OrderChain(o), OrderChain(b)) => o.p == b.p
    case (PaymentChain(q), PaymentChain(b)) => q.p == b.p && (!b.p.byName ==> q.c == b.p.c)
    case _ => false
  }

  /** Transaction `r` is what request `a` asked for; a payment by name may be for any customer. */
  predicate Serves(r: Req, a: Ctx)
  {
    match (r, a)
    case (OrderReq(p, _), OrderChain(b)) => p == b.p
    case (PaymentReq(p, c, _), PaymentChain(b)) => p == b.p && (!b.p.byName ==> c == b.p.c)
    case _ => false
  }

  ghost predicate SlotServes(sl: Slot, a: Ctx)
  {
    SameParams(sl.ctx, a) && (sl.req.Some? ==> Serves(sl.req.value, a))
  }

  ghost predicate Attributed(s: State, asked: seq<Ctx>)
  {
    && |s.slots| == |asked|
    && (forall i :: 0 <= i < |asked| ==> SlotServes(s.slots[i], asked[i]))
    && (forall j :: 0 <= j < |s.log| ==> s.log[j].slot < |asked| && Serves(s.log[j].req, asked[s.log[j].slot]))
  }

  lemma FireKeepsParams(c: Ctx, cb: Callback, r: FutureResult, env: Env, a: Ctx)
    requires c.Valid() && Registered(c, cb) && SameParams(c, a)
    ensures SameParams(Fire(c, cb, r, env).ctx, a)
  {
  }

  lemma FireServes(s: State, sl: Slot, p: Pending, fault: Fault, rv: nat, env: Env, a: Ctx)
    requires CanFire(s, sl, p, rv) && SlotServes(sl, a)
    ensures SlotServes(FireSlot(s, sl, p, fault, rv, env), a)
  {
    match p
    case AwaitGet(k, cb) => FireKeepsParams(sl.ctx, cb, ReadResult(s, sl.tr, Version(sl.tr, rv), k, fault), env, a);
    case AwaitReport(ok) => FireKeepsParams(sl.ctx, OnCommit, if ok then Ready else Failed, env, a);
    case AwaitOnError => FireKeepsParams(sl.ctx, OnErrorRetry, if fault.NoFault? then Ready else Failed, env, a);
  }

  lemma DeliverKeepsAttribution(s: State, asked: seq<Ctx>, f: nat, fault: Fault, rv: nat, env: Env, sub: Submission)
    requires Attributed(s, asked)
    ensures Attributed(DeliverStep(s, f, fault, rv, env, sub), asked)
  {
    if f in s.ledger.outstanding {
      var Future(i, p) := s.ledger.outstanding[f];
      if i < |s.slots| && CanFire(s, s.slots[i], p, rv) {
        FireServes(s, s.slots[i], p, fault, rv, env, asked[i]);
      }
    }
  }

  lemma DecideKeepsAttribution(s: State, asked: seq<Ctx>, f: nat, apply: bool, report: bool)
    requires Attributed(s, asked)
    ensures Attributed(DecideStep(s, f, apply, report), asked)
  {
  }

  lemma StartKeepsAttribution(s: State, asked: seq<Ctx>, c: Ctx, alloc: bool, create: bool, sub: Submission)
    requires Attributed(s, asked)
    ensures Attributed(StartStep(s, c, alloc, create, sub), if Initial(c) then asked + [c] else asked)
  {
  }

  lemma {:induction false} RunsAreAttributed(db: Db, es: seq<Event>)
    ensures Attributed(Run(InitialState(db), es), Arrived(es))
  {
    if es != [] {
      var n := |es| - 1;
      RunsAreAttributed(db, es[..n]);
      var s, asked := Run(InitialState(db), es[..n]), Arrived(es[..n]);
      match es[n]
      case Start(c, alloc, create, sub) => StartKeepsAttribution(s, asked, c, alloc, create, sub);
      case Deliver(f, fault, rv, env, sub) => DeliverKeepsAttribution(s, asked, f, fault, rv, env, sub);
      case Decide(f, apply, report) => DecideKeepsAttribution(s, asked, f, apply, report);
    }
  }

  /** Main result: the log holds, for the `i`-th request to arrive, only transactions with that
      request's parameters; and once the request is finished, exactly one if it was answered with
      200 and none otherwise, plus one for each commit with an unknown result. */
  lemma CommitsServeRequests(db: Db, es: seq<Event>)
    ensures var s := Run(InitialState(db), es);
      && |s.slots| == |Arrived(es)|
      && (forall j :: 0 <= j < |s.log| ==>
            s.log[j].slot < |Arrived(es)| && Serves(s.log[j].req, Arrived(es)[s.log[j].slot]))
      && (forall i :: 0 <= i < |s.slots| && Done(s.slots[i]) ==>
            Commits(s.log, i) == s.slots[i].unknowns + (if s.slots[i].status == 200 then 1 else 0))
  {
    var s := Run(InitialState(db), es);
    RunsAreAttributed(db, es);
    forall i | 0 <= i < |s.slots| && Done(s.slots[i])
      ensures Commits(s.log, i) == s.slots[i].unknowns + (if s.slots[i].status == 200 then 1 else 0)
    {
      ResponsesTellTheTruth(db, es, i);
    }
  }
}
