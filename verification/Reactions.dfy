/** What a callback does next, from its future alone: the reads of a request in their order, what is
    retried, and what is answered. */
module Reactions {
  import opened Keyspace
  import opened Rows
  import opened Serial
  import opened Chains
  import opened Engine
  import opened Serializability

  /** How many rows a request reads. */
  function ReadCount(c: Ctx): nat
  {
    match c
    case OrderChain(o) => |o.p.lines| + 2
    case PaymentChain(_) => 3
  }

  /** The context waits for its `j`-th read: an order reads district, customer and the stock rows of
      its lines, a payment reads warehouse, district and customer. */
  predicate AtRead(c: Ctx, k: Key, cb: Callback, j: nat)
  {
    match c
    case OrderChain(o) =>
      if j == 0 then k == District(o.p.w, o.p.d) && cb == OnDistrictRead
      else if j == 1 then k == Customer(o.p.w, o.p.d, o.p.c) && cb == OnCustomerRead
      else j - 2 == o.currentOl < |o.p.lines|
           && k == Stock(o.p.lines[j - 2].supply, o.p.lines[j - 2].item) && cb == OnStockRead
    case PaymentChain(q) =>
      if j == 0 then k == Warehouse(q.p.w) && cb == OnWarehouseRead
      else if j == 1 then k == District(q.p.cw, q.p.cd) && cb == OnDistrictRead
      else j == 2 && k == Customer(q.p.cw, q.p.cd, q.c) && cb == OnCustomerRead
  }

  /** The context has taken over what it needs of row `r` under `k`. */
  predicate Remembers(c: Ctx, k: Key, r: Row)
  {
    match c
    case OrderChain(o) =>
      (match r
       case DistrictRow(tax, _, next) => o.dTax == tax && o.dNextOid == next
       case CustomerRow(discount, _, _, _) => o.cDiscount == discount
       case StockRow(quantity, _, _) =>
         var i := o.currentOl - 1;
         && 0 <= i < |o.p.lines| && i < |o.sQuantity| && i < |o.sAmount|
         && o.sQuantity[i] == NewQuantity(quantity, o.p.lines[i].quantity)
         && o.sAmount[i] == 100 * o.p.lines[i].quantity as int
       case _ => false)
    case PaymentChain(q) =>
      (match r
       case WarehouseRow(ytd) => q.wYtd == ytd
       case DistrictRow(_, ytd, _) => q.dYtd == ytd
       case CustomerRow(_, balance, _, cnt) => q.cBalance == balance && q.cPaymentCnt == cnt
       case _ => false)
  }

  /** A read that fails is handed to `on_error`; a value that is not a row of the table is answered
      with 500; a row is remembered and followed by the next read, or by the commit after the last. */
  predicate ReadReaction(c: Ctx, k: Key, j: nat, r: FutureResult, out: Outcome<Ctx>)
  {
    if r.Failed? then out == Outcome(c, [], HandleError)
    else if !(r.Found? && Fits(k, r.value)) then out == Outcome(c, [], Respond(500, Message))
    else
      && Remembers(out.ctx, k, r.value)
      && ReadCount(out.ctx) == ReadCount(c)
      && if j + 1 < ReadCount(c) then out.action.Get? && AtRead(out.ctx, out.action.key, out.action.cb, j + 1)
         else out.action.Commit?
  }

  lemma OrderReacts(o: OrderCtx, k: Key, cb: Callback, j: nat, r: FutureResult, env: Env)
    requires o.Valid() && Registered(OrderChain(o), cb) && AtRead(OrderChain(o), k, cb, j)
    ensures ReadReaction(OrderChain(o), k, j, r, Fire(OrderChain(o), cb, r, env))
  {
  }

  lemma PaymentReacts(q: PaymentCtx, k: Key, cb: Callback, j: nat, r: FutureResult, env: Env)
    requires Registered(PaymentChain(q), cb) && AtRead(PaymentChain(q), k, cb, j)
    ensures ReadReaction(PaymentChain(q), k, j, r, Fire(PaymentChain(q), cb, r, env))
  {
  }

  lemma ReadReacts(c: Ctx, k: Key, cb: Callback, j: nat, r: FutureResult, env: Env)
    requires c.Valid() && Registered(c, cb) && AtRead(c, k, cb, j)
    ensures ReadReaction(c, k, j, r, Fire(c, cb, r, env))
  {
    match c
    case OrderChain(o) => OrderReacts(o, k, cb, j, r, env);
    case PaymentChain(q) => PaymentReacts(q, k, cb, j, r, env);
  }

  /** A failed commit is handed to `on_error`, a successful one answered with 200; an `on_error` that
      succeeds starts over at the first read, one that fails is answered with 503. */
  lemma CommitReacts(c: Ctx, ok: bool, env: Env)
    requires c.Valid()
    ensures var out := Fire(c, OnCommit, if ok then Ready else Failed, env);
      if ok then out.action.Respond? && out.action.status == 200 && (out.ctx.OrderChain? ==> out.ctx.o.committed)
      else out == Outcome(c, [], HandleError)
  {
  }

  lemma ErrorReacts(c: Ctx, ok: bool, env: Env)
    requires c.Valid()
    ensures var out := Fire(c, OnErrorRetry, if ok then Ready else Failed, env);
      if ok then
        out.action.Get? && AtRead(out.ctx, out.action.key, out.action.cb, 0) && ReadCount(out.ctx) == ReadCount(c)
      else out == Outcome(c, [], Respond(503, Message))
  {
  }

  /** Which read a context waits for. */
  lemma WaitingRead(init: Db, log: seq<Entry>, sl: Slot, k: Key, cb: Callback) returns (j: nat)
    requires SlotInv(init, log, sl, AwaitGet(k, cb))
    ensures AtRead(sl.ctx, k, cb, j)
  {
    match sl.ctx
    case OrderChain(o) => j := if cb == OnDistrictRead then 0 else if cb == OnCustomerRead then 1 else o.currentOl + 2;
    case PaymentChain(_) => j := if cb == OnWarehouseRead then 0 else if cb == OnDistrictRead then 1 else 2;
  }

  /** The row is there, and long enough for the struct of its table. */
  predicate HasRow(db: Db, k: Key) { k in db && Fits(k, db[k]) }

  /** What follows when the future behind `p` is delivered in state `s`. */
  ghost predicate Reacts(s: State, sl: Slot, p: Pending, fault: Fault, rv: nat, a: Action)
    requires p.AwaitGet? ==> Version(sl.tr, rv) <= |s.log|
  {
    match p
    case AwaitReport(ok) => if ok then a.Respond? && a.status == 200 else a.HandleError?
    case AwaitOnError =>
      if fault.NoFault? then a.Get? && AtRead(sl.ctx, a.key, a.cb, 0) else a == Respond(503, Message)
    case AwaitGet(k, _) =>
      if fault.FutureFault? then a.HandleError?
      else if fault.NoFault? && HasRow(DbAt(s.init, s.log, Version(sl.tr, rv)), k) then a.Get? || a.Commit?
      else a == Respond(500, Message)
    case AwaitCommit => true
  }

  lemma FireReacts(s: State, sl: Slot, p: Pending, fault: Fault, rv: nat, env: Env)
    requires SlotInv(s.init, s.log, sl, p) && CanFire(s, sl, p, rv)
    ensures Reacts(s, sl, p, fault, rv, FireOutcome(s, sl, p, fault, rv, env).action)
  {
    match p
    case AwaitGet(k, cb) =>
      var r := ReadResult(s, sl.tr, Version(sl.tr, rv), k, fault);
      var j := WaitingRead(s.init, s.log, sl, k, cb);
      ReadReacts(sl.ctx, k, cb, j, r, env);
      assert Apply(DbAt(s.init, s.log, Version(sl.tr, rv)), sl.tr.buffer) == DbAt(s.init, s.log, Version(sl.tr, rv));
    case AwaitReport(ok) => CommitReacts(sl.ctx, ok, env);
    case AwaitOnError => ErrorReacts(sl.ctx, fault.NoFault?, env);
  }

  /** Main result: in every run, whatever future is delivered, a request is answered exactly when its
      commit succeeded, its row is missing or short, or `on_error` gave up; every other error goes to
      `on_error`, and from there back to the first read. */
  lemma RunsReact(db: Db, es: seq<Event>, f: nat, fault: Fault, rv: nat, env: Env)
    requires f in Run(InitialState(db), es).ledger.outstanding
    requires var s := Run(InitialState(db), es);
      var Future(i, p) := s.ledger.outstanding[f];
      i < |s.slots| && CanFire(s, s.slots[i], p, rv)
    ensures var s := Run(InitialState(db), es);
      var Future(i, p) := s.ledger.outstanding[f];
      Reacts(s, s.slots[i], p, fault, rv, FireOutcome(s, s.slots[i], p, fault, rv, env).action)
  {
    var s := Run(InitialState(db), es);
    RunKeepsInv(db, es);
    FireReacts(s, s.slots[s.ledger.outstanding[f].slot], s.ledger.outstanding[f].pending, fault, rv, env);
  }

  /** In every run a future can fire as soon as the cluster has decided it, at any read version there is. */
  lemma RunsCanFire(db: Db, es: seq<Event>, f: nat, rv: nat)
    requires f in Run(InitialState(db), es).ledger.outstanding && rv <= |Run(InitialState(db), es).log|
    ensures var s := Run(InitialState(db), es);
      var Future(i, p) := s.ledger.outstanding[f];
      i < |s.slots| && (CanFire(s, s.slots[i], p, rv) <==> !p.AwaitCommit?)
  {
    RunKeepsInv(db, es);
  }
}
