/** Every run of the engine is equivalent to executing the committed requests one after the
    other, in commit order, whatever the interleaving, the conflicts and the retries. */
module Serializability {
  import opened Words
  import opened Keyspace
  import opened Serial
  import opened Chains
  import opened Engine
  import opened Ownership

  /** The rows read so far match the context, against snapshot `db`. */
  ghost predicate OrderProgress(o: OrderCtx, seen: set<Key>, db: Db, n: nat)
    requires o.Valid() && n <= |o.p.lines|
  {
    && District(o.p.w, o.p.d) in seen && Customer(o.p.w, o.p.d, o.p.c) in seen
    && HasDistrict(db, District(o.p.w, o.p.d))
    && HasCustomer(db, Customer(o.p.w, o.p.d, o.p.c))
    && o.dNextOid == db[District(o.p.w, o.p.d)].dNextOid
    && forall i :: 0 <= i < n ==>
         && StockKeyOf(o.p.lines[i]) in seen
         && HasStock(db, StockKeyOf(o.p.lines[i]))
         && o.sQuantity[i] == LineQuantity(o.p.lines[i], db)
         && o.sAmount[i] == LineAmount(o.p.lines[i])
  }

  ghost predicate OrderStage(o: OrderCtx, seen: set<Key>, db: Db, k: Key, cb: Callback)
    requires o.Valid()
  {
    match cb
    case OnDistrictRead => k == District(o.p.w, o.p.d)
    case OnCustomerRead =>
      && k == Customer(o.p.w, o.p.d, o.p.c)
      && District(o.p.w, o.p.d) in seen
      && HasDistrict(db, District(o.p.w, o.p.d))
      && o.dNextOid == db[District(o.p.w, o.p.d)].dNextOid
    case OnStockRead =>
      && o.currentOl < |o.p.lines|
      && k == StockKeyOf(o.p.lines[o.currentOl])
      && OrderProgress(o, seen, db, o.currentOl)
    case _ => false
  }

  ghost predicate PaymentStage(q: PaymentCtx, seen: set<Key>, db: Db, k: Key, cb: Callback)
  {
    match cb
    case OnWarehouseRead => k == Warehouse(q.p.w)
    case OnDistrictRead =>
      && k == District(q.p.cw, q.p.cd)
      && Warehouse(q.p.w) in seen
      && HasWarehouse(db, Warehouse(q.p.w))
      && q.wYtd == db[Warehouse(q.p.w)].wYtd
    case OnCustomerRead =>
      && k == Customer(q.p.cw, q.p.cd, q.c)
      && Warehouse(q.p.w) in seen && District(q.p.cw, q.p.cd) in seen
      && HasWarehouse(db, Warehouse(q.p.w))
      && HasDistrict(db, District(q.p.cw, q.p.cd))
      && q.wYtd == db[Warehouse(q.p.w)].wYtd
      && q.dYtd == db[District(q.p.cw, q.p.cd)].dYtd
    case _ => false
  }

  ghost predicate Stage(c: Ctx, seen: set<Key>, db: Db, k: Key, cb: Callback)
    requires c.Valid()
  {
    match c
    case OrderChain(o) => OrderStage(o, seen, db, k, cb)
    case PaymentChain(q) => PaymentStage(q, seen, db, k, cb)
  }

  /** What holds of a context while a future of kind `p` is outstanding for it. */
  ghost predicate SlotInv(init: Db, log: seq<Entry>, sl: Slot, p: Pending)
  {
    && sl.ctx.Valid()
    && (sl.tr.rv.Some? ==> sl.tr.rv.value <= |log|)
    && match p
       case AwaitGet(k, cb) =>
         && sl.tr.buffer == []
         && Registered(sl.ctx, cb)
         && (sl.tr.rv.None? ==> sl.tr == FRESH && FirstGet(sl.ctx) == Get(k, cb))
         && (sl.tr.rv.Some? ==> Stage(sl.ctx, sl.tr.readSet, DbAt(init, log, sl.tr.rv.value), k, cb))
       case AwaitCommit =>
         && sl.tr.rv.Some? && sl.req.Some?
         && Reads(sl.req.value) <= sl.tr.readSet
         && Effect(sl.req.value, DbAt(init, log, sl.tr.rv.value)) == Some(sl.tr.buffer)
       case _ => true
  }

  ghost predicate Replays(e: Entry, db: Db)
  {
    Effect(e.req, db) == Some(e.writes)
  }

  /** Each commit is what its request does to the database just before it. */
  ghost predicate SerialLog(init: Db, log: seq<Entry>)
  {
    forall j :: 0 <= j < |log| ==> Replays(log[j], DbAt(init, log, j))
  }

  ghost predicate Inv(s: State)
  {
    && Linear(s) && Balanced(s.ledger)
    && SerialLog(s.init, s.log)
    && forall f :: f in s.ledger.outstanding ==>
         SlotInv(s.init, s.log, s.slots[s.ledger.outstanding[f].slot], s.ledger.outstanding[f].pending)
  }

  /* --- Versions --- */

  lemma {:induction false} DbAtPrefix(init: Db, log: seq<Entry>, e: Entry, v: nat)
    requires v <= |log|
    ensures DbAt(init, log + [e], v) == DbAt(init, log, v)
    decreases v
  {
    if v > 0 {
      DbAtPrefix(init, log, e, v - 1);
      assert (log + [e])[v - 1] == log[v - 1];
    }
  }

  /** Without a conflict the rows read at version `v` are still current. */
  lemma {:induction false} UnchangedReads(init: Db, log: seq<Entry>, v: nat, w: nat, readSet: set<Key>, k: Key)
    requires v <= w <= |log| && NoConflict(log, v, readSet) && k in readSet
    ensures SameAt(DbAt(init, log, v), DbAt(init, log, w), k)
    decreases w - v
  {
    if v < w {
      UnchangedReads(init, log, v, w - 1, readSet, k);
      ApplyFrame(DbAt(init, log, w - 1), log[w - 1].writes, k);
    }
  }

  lemma SlotInvGrows(init: Db, log: seq<Entry>, e: Entry, sl: Slot, p: Pending)
    requires SlotInv(init, log, sl, p)
    ensures SlotInv(init, log + [e], sl, p)
  {
    if sl.tr.rv.Some? {
      DbAtPrefix(init, log, e, sl.tr.rv.value);
    }
  }

  /* --- One callback --- */

  /** After the last stock read the buffered writes are the effect of the request on the snapshot. */
  lemma OrderCommits(o: OrderCtx, seen: set<Key>, db: Db, now: i64)
    requires o.Valid() && o.currentOl == |o.p.lines| && OrderProgress(o, seen, db, |o.p.lines|)
    ensures OrderEffect(o.p, now, db) == Some(OrderWrites(o.p, now, o.dNextOid, o.sQuantity, o.sAmount))
    ensures OrderReads(o.p) <= seen
  {
    assert OrderReady(o.p, db);
    assert StockWrites(o.p, o.sQuantity) == StockWrites(o.p, Quantities(o.p, db));
    assert LineWrites(o.p, o.dNextOid, o.sAmount) == LineWrites(o.p, o.dNextOid, Amounts(o.p));
    forall k | k in OrderReads(o.p) ensures k in seen {
      if k in LineReads(o.p, |o.p.lines|) {
        var i :| 0 <= i < |o.p.lines| && k == StockKeyOf(o.p.lines[i]);
      }
    }
  }

  lemma OrderStockStep(o: OrderCtx, seen: set<Key>, db: Db, n: nat, now: i64)
    requires o.Valid() && n == o.currentOl && OrderProgress(o, seen, db, n)
    ensures var out := StartStockReads(o, now);
      && (out.action.Get? ==> out.ctx.Valid() && OrderStage(out.ctx, seen, db, out.action.key, out.action.cb))
      && (out.action.Commit? ==> OrderEffect(o.p, now, db) == Some(out.writes) && OrderReads(o.p) <= seen)
      && out.ctx == o && (out.action.Get? || out.action.Commit?)
  {
    if o.currentOl >= |o.p.lines| {
      OrderCommits(o, seen, db, now);
    }
  }

  /** One read callback of the NewOrder chain, against the snapshot it reads. */
  lemma OrderRead(o: OrderCtx, seen: set<Key>, db: Db, k: Key, cb: Callback, r: FutureResult, env: Env)
    requires o.Valid() && OrderStage(o, seen, db, k, cb)
    requires r == Lookup(db, k) || r == Failed || r == Unreadable
    ensures var out := Fire(OrderChain(o), cb, r, env);
      && (out.action.Get? ==> Stage(out.ctx, seen + {k}, db, out.action.key, out.action.cb))
      && (out.action.Commit? ==>
            && Effect(RequestOf(out.ctx, env.now), db) == Some(out.writes)
            && Reads(RequestOf(out.ctx, env.now)) <= seen + {k})
  {
    if cb == OnCustomerRead && r.Found? && r.value.CustomerRow? {
      OrderStockStep(o.(cDiscount := r.value.cDiscount, currentOl := 0), seen + {k}, db, 0, env.now);
    } else if cb == OnStockRead && r.Found? && r.value.StockRow? {
      var l, i := o.p.lines[o.currentOl], o.currentOl;
      var o' := o.(sQuantity := o.sQuantity[i := NewQuantity(r.value.sQuantity, l.quantity)],
                   sAmount := o.sAmount[i := LineAmount(l)],
                   currentOl := i + 1);
      OrderStockStep(o', seen + {k}, db, i + 1, env.now);
    }
  }

  lemma PaymentRead(q: PaymentCtx, seen: set<Key>, db: Db, k: Key, cb: Callback, r: FutureResult, env: Env)
    requires PaymentStage(q, seen, db, k, cb)
    requires r == Lookup(db, k) || r == Failed || r == Unreadable
    ensures var out := Fire(PaymentChain(q), cb, r, env);
      && (out.action.Get? ==> Stage(out.ctx, seen + {k}, db, out.action.key, out.action.cb))
      && (out.action.Commit? ==>
            && Effect(RequestOf(out.ctx, env.now), db) == Some(out.writes)
            && Reads(RequestOf(out.ctx, env.now)) <= seen + {k})
  {
  }

  /** Carrying out the action of a callback re-establishes the slot invariant. */
  lemma ContinueKeepsSlot(init: Db, log: seq<Entry>, sl: Slot, tr: Tr, out: Outcome<Ctx>, env: Env, resets: nat)
    requires !out.action.Respond?
    requires out.ctx.Valid() && (tr.rv.Some? ==> tr.rv.value <= |log|)
    requires out.action.Get? ==>
      && tr.buffer == [] && out.writes == []
      && Registered(out.ctx, out.action.cb)
      && (tr.rv.None? ==> tr == FRESH && FirstGet(out.ctx) == out.action)
      && (tr.rv.Some? ==> Stage(out.ctx, tr.readSet, DbAt(init, log, tr.rv.value), out.action.key, out.action.cb))
    requires out.action.Commit? ==>
      && tr.buffer == [] && tr.rv.Some?
      && Reads(RequestOf(out.ctx, env.now)) <= tr.readSet
      && Effect(RequestOf(out.ctx, env.now), DbAt(init, log, tr.rv.value)) == Some(out.writes)
    ensures SlotInv(init, log, Continue(sl, tr, out, env).(resets := resets), Await(out.action))
  {
    assert tr.buffer == [] ==> tr.buffer + out.writes == out.writes;
  }

  lemma FireKeepsSlot(s: State, sl: Slot, p: Pending, fault: Fault, rv: nat, env: Env)
    requires SlotInv(s.init, s.log, sl, p) && CanFire(s, sl, p, rv)
    requires !FireOutcome(s, sl, p, fault, rv, env).action.Respond?
    ensures SlotInv(s.init, s.log, FireSlot(s, sl, p, fault, rv, env),
                    Await(FireOutcome(s, sl, p, fault, rv, env).action))
  {
    var tr, out := FireTr(sl, p, fault, rv), FireOutcome(s, sl, p, fault, rv, env);
    var n := FireSlot(s, sl, p, fault, rv, env).resets;
    if p.AwaitGet? {
      var v, k, cb := Version(sl.tr, rv), p.key, p.cb;
      var db, r := DbAt(s.init, s.log, v), ReadResult(s, sl.tr, v, k, fault);
      assert Apply(db, sl.tr.buffer) == db;
      assert Stage(sl.ctx, sl.tr.readSet, db, k, cb);
      match sl.ctx {
        case OrderChain(o) => OrderRead(o, sl.tr.readSet, db, k, cb, r, env);
        case PaymentChain(q) => PaymentRead(q, sl.tr.readSet, db, k, cb, r, env);
      }
      assert out == Fire(sl.ctx, cb, r, env);
    }
    ContinueKeepsSlot(s.init, s.log, sl, tr, out, env, n);
  }

  /* --- Whole runs --- */

  /** A commit without conflict, although computed from an old snapshot, is what its
      request does to the current database. */
  lemma CommitIsCurrent(init: Db, log: seq<Entry>, sl: Slot, i: nat)
    requires SlotInv(init, log, sl, AwaitCommit)
    requires NoConflict(log, sl.tr.rv.value, sl.tr.readSet)
    ensures Replays(Entry(sl.req.value, sl.tr.buffer, i), DbAt(init, log, |log|))
  {
    var r, v := sl.req.value, sl.tr.rv.value;
    forall k | k in Reads(r)
      ensures SameAt(DbAt(init, log, v), DbAt(init, log, |log|), k)
    {
      UnchangedReads(init, log, v, |log|, sl.tr.readSet, k);
    }
    EffectDependsOnReads(r, DbAt(init, log, v), DbAt(init, log, |log|));
  }

  lemma CommitExtendsLog(init: Db, log: seq<Entry>, e: Entry)
    requires SerialLog(init, log) && Replays(e, DbAt(init, log, |log|))
    ensures SerialLog(init, log + [e])
  {
    forall j | 0 <= j <= |log|
      ensures Replays((log + [e])[j], DbAt(init, log + [e], j))
    {
      EntryStays(init, log, e, j);
    }
  }

  lemma EntryStays(init: Db, log: seq<Entry>, e: Entry, j: nat)
    requires SerialLog(init, log) && Replays(e, DbAt(init, log, |log|)) && j <= |log|
    ensures Replays((log + [e])[j], DbAt(init, log + [e], j))
  {
    var x := (log + [e])[j];
    DbAtPrefix(init, log, e, j);
    assert Replays(x, DbAt(init, log, j)) by { if j < |log| { assert x == log[j]; } else { assert x == e; } }
    ReplaysOn(x, DbAt(init, log, j), DbAt(init, log + [e], j));
  }

  lemma ReplaysOn(e: Entry, db: Db, db': Db)
    requires Replays(e, db) && db == db'
    ensures Replays(e, db')
  {
  }

  lemma DecideKeepsInv(s: State, f: nat, apply: bool, report: bool)
    requires Inv(s)
    ensures Inv(DecideStep(s, f, apply, report))
  {
    var s', out := DecideStep(s, f, apply, report), s.ledger.outstanding;
    DecideKeepsOwnership(s, f, apply, report);
    if f in out && out[f].pending.AwaitCommit? {
      var i := out[f].slot;
      var sl := s.slots[i];
      assert SlotInv(s.init, s.log, sl, AwaitCommit);
      if |s'.log| > |s.log| {
        CommitIsCurrent(s.init, s.log, sl, i);
        CommitExtendsLog(s.init, s.log, Entry(sl.req.value, sl.tr.buffer, i));
      }
      OthersKeepInv(s, s'.log, f);
      forall g | g in s'.ledger.outstanding
        ensures SlotInv(s.init, s'.log, s'.slots[s'.ledger.outstanding[g].slot], s'.ledger.outstanding[g].pending)
      {
        if g != f { assert s'.ledger.outstanding[g] == out[g] && s'.slots[out[g].slot] == s.slots[out[g].slot]; }
      }
    }
  }

  /** The other outstanding futures do not notice a commit: their snapshots stay. */
  lemma OthersKeepInv(s: State, log: seq<Entry>, f: nat)
    requires Inv(s) && f in s.ledger.outstanding
    requires log == s.log || (|log| > 0 && log[..|log| - 1] == s.log)
    ensures var out := s.ledger.outstanding;
      forall g :: g in out && g != f ==>
        && out[g].slot != out[f].slot
        && SlotInv(s.init, log, s.slots[out[g].slot], out[g].pending)
  {
    var out := s.ledger.outstanding;
    forall g | g in out && g != f
      ensures SlotInv(s.init, log, s.slots[out[g].slot], out[g].pending)
    {
      assert SlotInv(s.init, s.log, s.slots[out[g].slot], out[g].pending);
      if log != s.log {
        assert log == s.log + [log[|log| - 1]];
        SlotInvGrows(s.init, s.log, log[|log| - 1], s.slots[out[g].slot], out[g].pending);
      }
    }
  }

  lemma DeliverKeepsInv(s: State, f: nat, fault: Fault, rv: nat, env: Env, sub: Submission)
    requires Inv(s)
    ensures Inv(DeliverStep(s, f, fault, rv, env, sub))
  {
    var s', out := DeliverStep(s, f, fault, rv, env, sub), s.ledger.outstanding;
    DeliverKeepsOwnership(s, f, fault, rv, env, sub);
    if f in out && CanFire(s, s.slots[out[f].slot], out[f].pending, rv) {
      var Future(i, p) := out[f];
      assert SlotInv(s.init, s.log, s.slots[i], p);
      if !FireOutcome(s, s.slots[i], p, fault, rv, env).action.Respond? {
        FireKeepsSlot(s, s.slots[i], p, fault, rv, env);
      }
      var a := FireOutcome(s, s.slots[i], p, fault, rv, env).action;
      forall g | g in s'.ledger.outstanding
        ensures SlotInv(s.init, s.log, s'.slots[s'.ledger.outstanding[g].slot], s'.ledger.outstanding[g].pending)
      {
        FiredFutures(s.ledger, f, i, a, sub, g);
        if g != s.ledger.created { assert out[g].slot != i; }
      }
    }
  }

  lemma StartKeepsInv(s: State, c: Ctx, alloc: bool, create: bool, sub: Submission)
    requires Inv(s)
    ensures Inv(StartStep(s, c, alloc, create, sub))
  {
    var s', out := StartStep(s, c, alloc, create, sub), s.ledger.outstanding;
    StartKeepsOwnership(s, c, alloc, create, sub);
    forall g | g in s'.ledger.outstanding
      ensures SlotInv(s.init, s.log, s'.slots[s'.ledger.outstanding[g].slot], s'.ledger.outstanding[g].pending)
    {
      if g in out {
        StartKeepsFuture(s, c, alloc, create, sub, g);
        assert SlotInv(s.init, s.log, s.slots[out[g].slot], out[g].pending);
      } else {
        StartedSlotInv(s, c, alloc, create, sub, g);
      }
    }
  }

  lemma StartedSlotInv(s: State, c: Ctx, alloc: bool, create: bool, sub: Submission, g: nat)
    requires g !in s.ledger.outstanding && g in StartStep(s, c, alloc, create, sub).ledger.outstanding
    ensures var s' := StartStep(s, c, alloc, create, sub);
      && s'.ledger.outstanding[g].slot < |s'.slots|
      && SlotInv(s.init, s.log, s'.slots[s'.ledger.outstanding[g].slot], s'.ledger.outstanding[g].pending)
  {
  }

  lemma StepKeepsInv(s: State, e: Event)
    requires Inv(s)
    ensures Inv(Step(s, e))
  {
    match e
    case Start(c, alloc, create, sub) => StartKeepsInv(s, c, alloc, create, sub);
    case Deliver(f, fault, rv, env, sub) => DeliverKeepsInv(s, f, fault, rv, env, sub);
    case Decide(f, apply, report) => DecideKeepsInv(s, f, apply, report);
  }

  lemma {:induction false} RunKeepsInv(db: Db, es: seq<Event>)
    ensures Inv(Run(InitialState(db), es)) && Run(InitialState(db), es).init == db
  {
    if es != [] {
      RunKeepsInv(db, es[..|es| - 1]);
      StepKeepsInv(Run(InitialState(db), es[..|es| - 1]), es[|es| - 1]);
    }
  }

  function Requests(log: seq<Entry>): seq<Req>
  {
    seq(|log|, i requires 0 <= i < |log| => log[i].req)
  }

  lemma ReplayIsExec(e: Entry, db: Db)
    requires Replays(e, db)
    ensures ExecOne(db, e.req) == Apply(db, e.writes) && Effect(e.req, db).Some?
  {
  }

  lemma {:induction false} SerialIsExec(init: Db, log: seq<Entry>, v: nat)
    requires SerialLog(init, log) && v <= |log|
    ensures Exec(init, Requests(log)[..v]) == DbAt(init, log, v)
    ensures AllApply(init, Requests(log)[..v])
    decreases v
  {
    if v > 0 {
      SerialIsExec(init, log, v - 1);
      assert Requests(log)[..v][..v - 1] == Requests(log)[..v - 1];
      assert Replays(log[v - 1], DbAt(init, log, v - 1));
      ReplayIsExec(log[v - 1], DbAt(init, log, v - 1));
    }
  }

  /** Main result: after any run the database is the serial execution of the committed
      requests in commit order, and each of them finds its rows when its turn comes. */
  lemma RunsAreSerial(db: Db, es: seq<Event>)
    ensures var s := Run(InitialState(db), es);
      && Database(s) == Exec(db, Requests(s.log))
      && AllApply(db, Requests(s.log))
  {
    var s := Run(InitialState(db), es);
    RunKeepsInv(db, es);
    SerialIsExec(db, s.log, |s.log|);
    assert Requests(s.log)[..|s.log|] == Requests(s.log);
  }

  /** In any run, what an attempt is about to commit is what its request does to the snapshot it
      read, and every row that depends on is in its conflict set: nothing an aborted attempt left
      in the context gets in. */
  lemma AttemptsAreFresh(db: Db, es: seq<Event>, f: nat)
    requires f in Run(InitialState(db), es).ledger.outstanding
    requires Run(InitialState(db), es).ledger.outstanding[f].pending.AwaitCommit?
    ensures var s := Run(InitialState(db), es);
      var i := s.ledger.outstanding[f].slot;
      && i < |s.slots| && s.slots[i].req.Some? && s.slots[i].tr.rv.Some? && s.slots[i].tr.rv.value <= |s.log|
      && Reads(s.slots[i].req.value) <= s.slots[i].tr.readSet
      && Effect(s.slots[i].req.value, DbAt(db, s.log, s.slots[i].tr.rv.value)) == Some(s.slots[i].tr.buffer)
  {
    RunKeepsInv(db, es);
  }
}
