/** What a successful reply says: the order number and the amount it reports are those of its own
    commit. */
module Replies {
  import opened Words
  import opened Keyspace
  import opened Serial
  import opened Chains
  import opened Engine
  import opened Ownership
  import opened ExactlyOnce
  import opened Serializability
  import opened Tables
  import opened Orders

  /** What the success callback of context `c` will report fits the transaction that is buffered. */
  predicate WillReport(c: Ctx, r: Req, ws: seq<Write>)
  {
    match c
    case OrderChain(o) =>
      r.OrderReq? && ws != [] && ws[0].key == Order(r.order.w, r.order.d, U32(o.dNextOid))
    case PaymentChain(q) => r.PaymentReq? && r.payment.amount == q.p.amount
  }

  /** The reply fits the commit. */
  predicate Reports(body: Body, e: Entry)
  {
    match body
    case OrderPlaced(oid) =>
      e.req.OrderReq? && e.writes != [] && e.writes[0].key == Order(e.req.order.w, e.req.order.d, U32(oid))
    case PaymentMade(amount) => e.req.PaymentReq? && e.req.payment.amount == amount
    case Message => false
  }

  predicate Logged(log: seq<Entry>, i: nat, r: Req, ws: seq<Write>)
  {
    exists j :: 0 <= j < |log| && log[j] == Entry(r, ws, i)
  }

  predicate Reported(log: seq<Entry>, i: nat, body: Body)
  {
    exists j :: 0 <= j < |log| && log[j].slot == i && Reports(body, log[j])
  }

  ghost predicate PendingReports(log: seq<Entry>, sl: Slot, i: nat, p: Pending)
  {
    match p
    case AwaitCommit => sl.req.Some? && WillReport(sl.ctx, sl.req.value, sl.tr.buffer)
    case AwaitReport(ok) =>
      ok ==> sl.req.Some? && WillReport(sl.ctx, sl.req.value, sl.tr.buffer)
             && Logged(log, i, sl.req.value, sl.tr.buffer)
    case _ => true
  }

  ghost predicate Truthful(s: State)
  {
    var out := s.ledger.outstanding;
    && (forall f :: f in out ==>
          out[f].slot < |s.slots| && PendingReports(s.log, s.slots[out[f].slot], out[f].slot, out[f].pending))
    && (forall i :: 0 <= i < |s.slots| && s.slots[i].status == 200 ==> Reported(s.log, i, s.slots[i].reply))
  }

  /** A chain that commits has buffered what it will report. */
  lemma CommitWillReport(c: Ctx, cb: Callback, r: FutureResult, env: Env)
    requires c.Valid() && Registered(c, cb) && Fire(c, cb, r, env).action.Commit?
    ensures var out := Fire(c, cb, r, env);
      WillReport(out.ctx, RequestOf(out.ctx, env.now), out.writes)
  {
  }

  lemma FireReports(s: State, sl: Slot, i: nat, p: Pending, fault: Fault, rv: nat, env: Env)
    requires CanFire(s, sl, p, rv) && SlotInv(s.init, s.log, sl, p) && PendingReports(s.log, sl, i, p)
    requires p.AwaitGet? ==> p.cb != OnCommit
    ensures var sl', a := FireSlot(s, sl, p, fault, rv, env), FireOutcome(s, sl, p, fault, rv, env).action;
      && (!a.Respond? ==> PendingReports(s.log, sl', i, Await(a)))
      && (a.Respond? && a.status == 200 ==> Reported(s.log, i, sl'.reply))
  {
    match p
    case AwaitGet(_, _) => ReadReports(s, sl, i, p, fault, rv, env);
    case AwaitReport(ok) =>
      if ok {
        var j :| 0 <= j < |s.log| && s.log[j] == Entry(sl.req.value, sl.tr.buffer, i);
        assert Reports(FireSlot(s, sl, p, fault, rv, env).reply, s.log[j]);
      }
    case AwaitOnError =>
  }

  lemma ReadReports(s: State, sl: Slot, i: nat, p: Pending, fault: Fault, rv: nat, env: Env)
    requires p.AwaitGet? && p.cb != OnCommit && CanFire(s, sl, p, rv) && SlotInv(s.init, s.log, sl, p)
    ensures var sl', a := FireSlot(s, sl, p, fault, rv, env), FireOutcome(s, sl, p, fault, rv, env).action;
      && (!a.Respond? ==> PendingReports(s.log, sl', i, Await(a)))
      && (a.Respond? ==> a.status != 200)
  {
    var r := ReadResult(s, sl.tr, Version(sl.tr, rv), p.key, fault);
    if Fire(sl.ctx, p.cb, r, env).action.Commit? {
      CommitWillReport(sl.ctx, p.cb, r, env);
      assert [] + Fire(sl.ctx, p.cb, r, env).writes == Fire(sl.ctx, p.cb, r, env).writes;
    }
  }

  lemma FiredStaysTruthful(s: State, f: nat, i: nat, a: Action, sub: Submission, sl: Slot)
    requires Truthful(s) && Linear(s) && Balanced(s.ledger)
    requires f in s.ledger.outstanding && s.ledger.outstanding[f].slot == i
    requires !a.Respond? ==> PendingReports(s.log, sl, i, Await(a))
    requires sl.status == 200 ==> Reported(s.log, i, sl.reply)
    ensures Truthful(s.(slots := s.slots[i := sl], ledger := Fired(s.ledger, f, i, a, sub)))
  {
    var slots, out := s.slots[i := sl], Fired(s.ledger, f, i, a, sub).outstanding;
    forall g | g in out
      ensures out[g].slot < |slots| && PendingReports(s.log, slots[out[g].slot], out[g].slot, out[g].pending)
    {
      FiredFutures(s.ledger, f, i, a, sub, g);
      if g != s.ledger.created { assert s.ledger.outstanding[g].slot != i; }
    }
  }

  /** A callback sets the status only when it responds. */
  lemma FireStatusIs(s: State, sl: Slot, p: Pending, fault: Fault, rv: nat, env: Env)
    requires CanFire(s, sl, p, rv)
    ensures var sl', a := FireSlot(s, sl, p, fault, rv, env), FireOutcome(s, sl, p, fault, rv, env).action;
      if a.Respond? then sl'.status == a.status else sl'.status == sl.status && sl'.reply == sl.reply
  {
  }

  lemma DeliverStaysTruthful(s: State, f: nat, fault: Fault, rv: nat, env: Env, sub: Submission)
    requires Inv(s) && Truthful(s) && NoCommitGets(s)
    ensures Truthful(DeliverStep(s, f, fault, rv, env, sub))
  {
    if f in s.ledger.outstanding {
      var Future(i, p) := s.ledger.outstanding[f];
      if CanFire(s, s.slots[i], p, rv) {
        assert SlotInv(s.init, s.log, s.slots[i], p);
        FireReports(s, s.slots[i], i, p, fault, rv, env);
        FireStatusIs(s, s.slots[i], p, fault, rv, env);
        FiredStaysTruthful(s, f, i, FireOutcome(s, s.slots[i], p, fault, rv, env).action, sub,
                           FireSlot(s, s.slots[i], p, fault, rv, env));
      }
    }
  }

  lemma StartStaysTruthful(s: State, c: Ctx, alloc: bool, create: bool, sub: Submission)
    requires Linear(s) && Balanced(s.ledger) && Truthful(s)
    ensures Truthful(StartStep(s, c, alloc, create, sub))
  {
    var s', out := StartStep(s, c, alloc, create, sub), s.ledger.outstanding;
    forall g | g in s'.ledger.outstanding
      ensures s'.ledger.outstanding[g].slot < |s'.slots|
      ensures var fut := s'.ledger.outstanding[g];
        PendingReports(s.log, s'.slots[fut.slot], fut.slot, fut.pending)
    {
      if g in out { StartKeepsFuture(s, c, alloc, create, sub, g); }
    }
  }

  lemma LogGrows(log: seq<Entry>, log': seq<Entry>, i: nat)
    requires log <= log'
    ensures forall r, ws :: Logged(log, i, r, ws) ==> Logged(log', i, r, ws)
    ensures forall body :: Reported(log, i, body) ==> Reported(log', i, body)
  {
    forall r, ws | Logged(log, i, r, ws) ensures Logged(log', i, r, ws) {
      var j :| 0 <= j < |log| && log[j] == Entry(r, ws, i);
      assert log'[j] == log[j];
    }
    forall body | Reported(log, i, body) ensures Reported(log', i, body) {
      var j :| 0 <= j < |log| && log[j].slot == i && Reports(body, log[j]);
      assert log'[j] == log[j];
    }
  }

  lemma DecideStaysTruthful(s: State, f: nat, apply: bool, report: bool)
    requires Linear(s) && Truthful(s)
    ensures Truthful(DecideStep(s, f, apply, report))
  {
    var s', out := DecideStep(s, f, apply, report), s.ledger.outstanding;
    if f in out && out[f].pending.AwaitCommit? {
      var i := out[f].slot;
      assert s.log <= s'.log;
      forall g | g in s'.ledger.outstanding
        ensures var fut := s'.ledger.outstanding[g];
          fut.slot < |s'.slots| && PendingReports(s'.log, s'.slots[fut.slot], fut.slot, fut.pending)
      {
        LogGrows(s.log, s'.log, out[g].slot);
        if g == f {
          assert PendingReports(s.log, s.slots[i], i, AwaitCommit);
          if |s'.log| > |s.log| { assert s'.log[|s.log|] == Entry(s.slots[i].req.value, s.slots[i].tr.buffer, i); }
        } else {
          assert s'.ledger.outstanding[g] == out[g] && s'.slots[out[g].slot] == s.slots[out[g].slot];
        }
      }
      forall k | 0 <= k < |s'.slots| && s'.slots[k].status == 200 ensures Reported(s'.log, k, s'.slots[k].reply) {
        LogGrows(s.log, s'.log, k);
        assert s.slots[k].status == 200 && s.slots[k].reply == s'.slots[k].reply;
      }
    }
  }

  lemma {:induction false} RunsStayTruthful(db: Db, es: seq<Event>)
    ensures Truthful(Run(InitialState(db), es))
  {
    if es != [] {
      var n := |es| - 1;
      RunsStayTruthful(db, es[..n]);
      RunKeepsInv(db, es[..n]);
      RunsAreAccounted(db, es[..n]);
      var s := Run(InitialState(db), es[..n]);
      match es[n]
      case Start(c, alloc, create, sub) => StartStaysTruthful(s, c, alloc, create, sub);
      case Deliver(f, fault, rv, env, sub) => DeliverStaysTruthful(s, f, fault, rv, env, sub);
      case Decide(f, apply, report) => DecideStaysTruthful(s, f, apply, report);
    }
  }

  /** The commit behind a reply: an order stored under the number it gives, which was the district's
      next order id when the order was committed; or a payment of the amount it gives. */
  ghost predicate Confirms(db: Db, log: seq<Entry>, j: nat, body: Body)
    requires j < |log|
  {
    match log[j].req
    case OrderReq(p, now) =>
      && body.OrderPlaced?
      && OrderReady(p, DbAt(db, log, j)) && body.oid == OrderId(p, DbAt(db, log, j))
      && Order(p.w, p.d, U32(body.oid)) in DbAt(db, log, j + 1)
      && IsOrder(DbAt(db, log, j + 1)[Order(p.w, p.d, U32(body.oid))], p, now)
    case PaymentReq(p, _, _) => body == PaymentMade(p.amount)
  }

  lemma ReportsConfirms(db: Db, log: seq<Entry>, j: nat, body: Body)
    requires SerialLog(db, log) && j < |log| && Reports(body, log[j])
    ensures Confirms(db, log, j, body)
  {
    assert Replays(log[j], DbAt(db, log, j));
    match log[j].req
    case PaymentReq(_, _, _) =>
    case OrderReq(p, now) =>
      var oid := OrderId(p, DbAt(db, log, j));
      assert log[j].writes[0] == HeadWrites(p, now, oid)[0];
      SameWord(oid, body.oid);
      OrderHeads(DbAt(db, log, j), p, now);
      ReplayIsExec(log[j], DbAt(db, log, j));
  }

  lemma SameWord(x: i32, y: i32)
    requires U32(x) == U32(y)
    ensures x == y
  {
  }

  /** Main result: in any run a request that was answered with 200 has a commit in the log which its
      reply describes. */
  lemma RepliesConfirmCommits(db: Db, es: seq<Event>, i: nat)
    requires i < |Run(InitialState(db), es).slots| && Run(InitialState(db), es).slots[i].status == 200
    ensures var s := Run(InitialState(db), es);
      exists j :: 0 <= j < |s.log| && s.log[j].slot == i && Confirms(db, s.log, j, s.slots[i].reply)
  {
    var s := Run(InitialState(db), es);
    RunsStayTruthful(db, es);
    RunKeepsInv(db, es);
    assert Reported(s.log, i, s.slots[i].reply);
    var j :| 0 <= j < |s.log| && s.log[j].slot == i && Reports(s.slots[i].reply, s.log[j]);
    ReportsConfirms(db, s.log, j, s.slots[i].reply);
  }
}
