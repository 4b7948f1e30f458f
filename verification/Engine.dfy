/** Many chains interleaved over one optimistic store.

    The store is FoundationDB's contract, taken as given: the committed database is the
    initial one with the write buffers of the committed transactions applied in commit
    order; a transaction reads the snapshot of its read version (through its own buffer);
    a commit is applied only if no key it read was written after its read version; a reset
    by `on_error` forgets reads and writes. A commit may be applied and still report an error. */
module Engine {
  import opened Words
  import opened Keyspace
  import opened Serial
  import opened Chains

  /** One FDB transaction: read version, read conflict set, write buffer. */
  datatype Tr = Tr(rv: Option<nat>, readSet: set<Key>, buffer: seq<Write>)

  const FRESH := Tr(None, {}, [])

  /** What an outstanding future stands for. A commit is first decided by the cluster, then reported. */
  datatype Pending =
    | AwaitGet(key: Key, cb: Callback)
    | AwaitCommit
    | AwaitReport(ok: bool)
    | AwaitOnError

  /** What was allocated and released on behalf of one request. */
  datatype Account = Account(allocs: nat, frees: nat, created: nat, destroyed: nat, responses: nat)

  /** One HTTP request: its context, its transaction and its bookkeeping. `req` is the request
      behind the buffered writes, `status` and `reply` the response, `unknowns` the number of commits
      that were applied but reported as failed. */
  datatype Slot = Slot(
    ctx: Ctx,
    tr: Tr,
    req: Option<Req>,
    account: Account,
    status: nat,
    reply: Body,
    unknowns: nat,
    callbacks: nat,
    resets: nat)

  /** A registered callback: the context it will be called on, and for what. */
  datatype Future = Future(slot: nat, pending: Pending)

  /** Futures and their callback wrappers, numbered in order of creation. */
  datatype Ledger = Ledger(
    created: nat,
    outstanding: map<nat, Future>,
    destroyed: seq<nat>,
    wrapped: seq<nat>,
    unwrapped: seq<nat>)

  /** A committed transaction and the request slot it came from. */
  datatype Entry = Entry(req: Req, writes: seq<Write>, slot: nat)

  datatype State = State(init: Db, log: seq<Entry>, slots: seq<Slot>, ledger: Ledger)

  /** How `submit_future` ends. */
  datatype Submission = Submitted | NoFuture | MallocFails | SetCallbackFails

  datatype Fault = NoFault | FutureFault | ValueFault

  datatype Event =
    /** A request arrives. `alloc`: `calloc` succeeds; `create`: the transaction is created. */
    | Start(ctx: Ctx, alloc: bool, create: bool, sub: Submission)
    /** Outstanding future `f` fires. `rv` is the read version if none is set yet. */
    | Deliver(f: nat, fault: Fault, rv: nat, env: Env, sub: Submission)
    /** The cluster decides the commit behind future `f`. */
    | Decide(f: nat, apply: bool, report: bool)

  function InitialState(db: Db): State
  {
    State(db, [], [], Ledger(0, map[], [], [], []))
  }

  /** The committed database after `v` commits. */
  function DbAt(init: Db, log: seq<Entry>, v: nat): Db
    requires v <= |log|
  {
    if v == 0 then init else Apply(DbAt(init, log, v - 1), log[v - 1].writes)
  }

  function Database(s: State): Db
  {
    DbAt(s.init, s.log, |s.log|)
  }

  /** No commit after version `v` wrote a key in `readSet`. */
  predicate NoConflict(log: seq<Entry>, v: nat, readSet: set<Key>)
  {
    forall j, k :: v <= j < |log| && k in readSet ==> !Mentions(log[j].writes, k)
  }

  function Lookup(db: Db, k: Key): FutureResult
  {
    if k in db then Found(db[k]) else Absent
  }

  /* --- Steps. An event that is not enabled changes nothing. --- */

  function Await(a: Action): Pending
    requires !a.Respond?
  {
    match a
    case Get(k, cb) => AwaitGet(k, cb)
    case Commit => AwaitCommit
    case HandleError => AwaitOnError
  }

  /** `submit_future` for context `i`: a future that cannot be handed over is destroyed on the
      spot, together with its wrapper. The callers ignore the return value. */
  function Submit(l: Ledger, i: nat, a: Action, sub: Submission): Ledger
  {
    var f := l.created;
    if a.Respond? then l else
    match sub
    case Submitted =>
      l.(created := f + 1, outstanding := l.outstanding[f := Future(i, Await(a))], wrapped := l.wrapped + [f])
    case NoFuture => l
    case MallocFails => l.(created := f + 1, destroyed := l.destroyed + [f])
    case SetCallbackFails =>
      l.(created := f + 1, destroyed := l.destroyed + [f],
         wrapped := l.wrapped + [f], unwrapped := l.unwrapped + [f])
  }

  /** `future_callback` after the user callback: the future is destroyed, its wrapper freed. */
  function Release(l: Ledger, f: nat): Ledger
  {
    l.(outstanding := l.outstanding - {f}, destroyed := l.destroyed + [f], unwrapped := l.unwrapped + [f])
  }

  /** A fired future is released after its callback has submitted the successor. */
  function Fired(l: Ledger, f: nat, i: nat, a: Action, sub: Submission): Ledger
  {
    Release(Submit(l, i, a, sub), f)
  }

  /** The request behind the writes a chain has just buffered. */
  function RequestOf(c: Ctx, now: i64): Req
  {
    match c
    case OrderChain(o) => OrderReq(o.p, now)
    case PaymentChain(q) => PaymentReq(q.p, q.c, now)
  }

  /** The slot after a callback. A response goes with destroying the transaction and freeing the context. */
  function Continue(sl: Slot, tr: Tr, out: Outcome<Ctx>, env: Env): Slot
  {
    var sl' := sl.(ctx := out.ctx,
                   tr := tr.(buffer := tr.buffer + out.writes),
                   req := if out.action.Commit? then Some(RequestOf(out.ctx, env.now)) else sl.req,
                   callbacks := sl.callbacks + 1);
    if out.action.Respond? then
      sl'.(status := out.action.status,
           reply := out.action.body,
           account := sl.account.(frees := sl.account.frees + 1,
                                  destroyed := sl.account.destroyed + 1,
                                  responses := sl.account.responses + 1))
    else sl'
  }

  /** The value a read at version `v` returns. */
  function ReadResult(s: State, tr: Tr, v: nat, k: Key, fault: Fault): FutureResult
    requires v <= |s.log|
  {
    match fault
    case FutureFault => Failed
    case ValueFault => Unreadable
    case NoFault => Lookup(Apply(DbAt(s.init, s.log, v), tr.buffer), k)
  }

  function Version(tr: Tr, rv: nat): nat { if tr.rv.Some? then tr.rv.value else rv }

  /** Whether a future registered for this slot can fire now. */
  ghost predicate CanFire(s: State, sl: Slot, p: Pending, rv: nat)
  {
    && sl.ctx.Valid()
    && match p
       case AwaitGet(_, cb) => Version(sl.tr, rv) <= |s.log| && Registered(sl.ctx, cb)
       case AwaitReport(_) => true
       case AwaitOnError => true
       case AwaitCommit => false
  }

  ghost function FireOutcome(s: State, sl: Slot, p: Pending, fault: Fault, rv: nat, env: Env): (out: Outcome<Ctx>)
    requires CanFire(s, sl, p, rv)
    ensures out.ctx.Valid() && (out.action.Get? ==> Registered(out.ctx, out.action.cb))
  {
    match p
    case AwaitGet(k, cb) => Fire(sl.ctx, cb, ReadResult(s, sl.tr, Version(sl.tr, rv), k, fault), env)
    case AwaitReport(ok) => Fire(sl.ctx, OnCommit, if ok then Ready else Failed, env)
    case AwaitOnError => Fire(sl.ctx, OnErrorRetry, if fault.NoFault? then Ready else Failed, env)
  }

  /** The transaction when the callback runs: a read has been recorded, a reset has been done. */
  function FireTr(sl: Slot, p: Pending, fault: Fault, rv: nat): Tr
  {
    match p
    case AwaitGet(k, _) => Tr(Some(Version(sl.tr, rv)), sl.tr.readSet + {k}, sl.tr.buffer)
    case AwaitOnError => if fault.NoFault? then FRESH else sl.tr
    case _ => sl.tr
  }

  ghost function FireSlot(s: State, sl: Slot, p: Pending, fault: Fault, rv: nat, env: Env): Slot
    requires CanFire(s, sl, p, rv)
  {
    var reset := if p.AwaitOnError? && fault.NoFault? then 1 else 0;
    Continue(sl, FireTr(sl, p, fault, rv), FireOutcome(s, sl, p, fault, rv, env), env).(resets := sl.resets + reset)
  }

  ghost function DeliverStep(s: State, f: nat, fault: Fault, rv: nat, env: Env, sub: Submission): State
  {
    if f !in s.ledger.outstanding then s
    else
      var Future(i, p) := s.ledger.outstanding[f];
      if i >= |s.slots| || !CanFire(s, s.slots[i], p, rv) then s
      else
        var out := FireOutcome(s, s.slots[i], p, fault, rv, env);
        s.(slots := s.slots[i := FireSlot(s, s.slots[i], p, fault, rv, env)],
           ledger := Fired(s.ledger, f, i, out.action, sub))
  }

  /** Applied only without conflict; an unapplied commit always reports an error. */
  function DecideStep(s: State, f: nat, apply: bool, report: bool): State
  {
    if f !in s.ledger.outstanding || !s.ledger.outstanding[f].pending.AwaitCommit?
      || s.ledger.outstanding[f].slot >= |s.slots| then s
    else
      var i := s.ledger.outstanding[f].slot;
      var sl := s.slots[i];
      var ok := apply && sl.req.Some? && sl.tr.rv.Some? && NoConflict(s.log, sl.tr.rv.value, sl.tr.readSet);
      s.(log := if ok then s.log + [Entry(sl.req.value, sl.tr.buffer, i)] else s.log,
         slots := s.slots[i := sl.(unknowns := sl.unknowns + (if ok && !report then 1 else 0))],
         ledger := s.ledger.(outstanding := s.ledger.outstanding[f := Future(i, AwaitReport(ok && report))]))
  }

  /** The parameters of a request, in a zeroed context. */
  ghost predicate Initial(c: Ctx)
  {
    match c
    case OrderChain(o) => o == OrderStart(o.p)
    case PaymentChain(q) => q == PaymentStart(q.p)
  }

  ghost function StartStep(s: State, c: Ctx, alloc: bool, create: bool, sub: Submission): State
  {
    if !Initial(c) then s
    else if !alloc || !create then
      var n := if alloc then 1 else 0;
      s.(slots := s.slots + [Slot(c, FRESH, None, Account(n, n, 0, 0, 1), 503, Message, 0, 0, 0)])
    else
      s.(slots := s.slots + [Slot(c, FRESH, None, Account(1, 0, 1, 0, 0), 0, Message, 0, 0, 0)],
         ledger := Submit(s.ledger, |s.slots|, FirstGet(c), sub))
  }

  ghost function Step(s: State, e: Event): State
  {
    match e
    case Start(c, alloc, create, sub) => StartStep(s, c, alloc, create, sub)
    case Deliver(f, fault, rv, env, sub) => DeliverStep(s, f, fault, rv, env, sub)
    case Decide(f, apply, report) => DecideStep(s, f, apply, report)
  }

  /** The state after a run: any number of requests, any interleaving, any faults. */
  ghost function Run(s: State, es: seq<Event>): State
  {
    if es == [] then s else Step(Run(s, es[..|es| - 1]), es[|es| - 1])
  }
}
