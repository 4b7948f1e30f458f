/** What an undisturbed attempt ends with: a request whose rows are there is committed and answered
    with 200, from any state of any run, at its first attempt or after a conflict. */
module Completion {
  import opened Words
  import opened Keyspace
  import opened Rows
  import opened Serial
  import opened Chains
  import opened Engine
  import opened Ownership
  import opened Serializability
  import opened ExactlyOnce
  import opened Stranding
  import opened Reactions

  /** The transaction that an attempt on context `c` makes, with this clock and generator. */
  function Wanted(c: Ctx, env: Env): Req
  {
    match c
    case OrderChain(o) => OrderReq(o.p, env.now)
    case PaymentChain(q) => PaymentReq(q.p, if q.p.byName then CustomerDraw(env.rand) else q.c, env.now)
  }

  /** The `j`-th row that a transaction reads. */
  function RowRead(r: Req, j: nat): Key
    requires j < RowCount(r)
  {
    match r
    case OrderReq(p, _) =>
      if j == 0 then District(p.w, p.d)
      else if j == 1 then Customer(p.w, p.d, p.c)
      else Stock(p.lines[j - 2].supply, p.lines[j - 2].item)
    case PaymentReq(p, c, _) =>
      if j == 0 then Warehouse(p.w) else if j == 1 then District(p.cw, p.cd) else Customer(p.cw, p.cd, c)
  }

  function RowCount(r: Req): nat
  {
    match r
    case OrderReq(p, _) => |p.lines| + 2
    case PaymentReq(_, _, _) => 3
  }

  predicate AllRows(r: Req, db: Db)
  {
    forall j :: 0 <= j < RowCount(r) ==> HasRow(db, RowRead(r, j))
  }

  /** A transaction can be made exactly when all rows it reads are there. */
  lemma EffectIff(r: Req, db: Db)
    ensures Effect(r, db).Some? <==> AllRows(r, db)
  {
    match r
    case PaymentReq(p, c, _) =>
      if AllRows(r, db) {
        assert HasRow(db, RowRead(r, 0)) && HasRow(db, RowRead(r, 1)) && HasRow(db, RowRead(r, 2));
      }
    case OrderReq(p, _) =>
      if AllRows(r, db) {
        assert HasRow(db, RowRead(r, 0)) && HasRow(db, RowRead(r, 1));
        forall i | 0 <= i < |p.lines| ensures HasStock(db, StockKeyOf(p.lines[i])) {
          assert HasRow(db, RowRead(r, i + 2));
        }
      }
  }

  /** The first `n` reads of an attempt whose first future is `f`, at version `v`: each callback
      submits the next future. */
  function Reading(f: nat, n: nat, v: nat, env: Env): seq<Event>
  {
    seq(n, j requires 0 <= j < n => Deliver(f + j, NoFault, v, env, Submitted))
  }

  /** An attempt without errors: its reads, the commit, which the cluster applies and reports, and its
      delivery. */
  function Attempt(f: nat, n: nat, v: nat, env: Env): seq<Event>
  {
    Reading(f, n, v, env) + [Decide(f + n, true, true), Deliver(f + n, NoFault, v, env, Submitted)]
  }

  /** The context can still become the one that makes `r`. */
  predicate Heads(c: Ctx, r: Req, j: nat, env: Env)
  {
    match (c, r)
    case (OrderChain(o), OrderReq(p, now)) => o.p == p && now == env.now
    case (PaymentChain(q), PaymentReq(p, customer, now)) =>
      q.p == p && now == env.now
      && (if q.p.byName && j < 2 then customer == CustomerDraw(env.rand) else customer == q.c)
    case _ => false
  }

  /** Context `i` is in the middle of an undisturbed attempt at `r`: it waits for read `j`, or for its
      commit after the last one; the rows read so far were there. */
  ghost predicate Attempting(s: State, i: nat, r: Req, j: nat, env: Env)
  {
    Serializability.Inv(s) && Going(s, i, r, j, env)
  }

  ghost predicate Going(s: State, i: nat, r: Req, j: nat, env: Env)
  {
    && i < |s.slots| && Live(s.slots[i]) && s.slots[i].status == 0 && s.ledger.created > 0
    && var f, sl := s.ledger.created - 1, s.slots[i];
    && f in s.ledger.outstanding && s.ledger.outstanding[f].slot == i
    && (if j == 0 then sl.tr.rv.None? || sl.tr.rv == Some(|s.log|) else sl.tr.rv == Some(|s.log|))
    && j <= RowCount(r)
    && (forall k :: 0 <= k < j ==> HasRow(Database(s), RowRead(r, k)))
    && var p := s.ledger.outstanding[f].pending;
       if j < RowCount(r) then p.AwaitGet? && AtRead(sl.ctx, p.key, p.cb, j) && Heads(sl.ctx, r, j, env)
                           && ReadCount(sl.ctx) == RowCount(r)
       else p.AwaitCommit? && sl.req == Some(r)
  }

  /** What an attempt at `r` by context `i` ends with: one more commit and a 200, or a 500. */
  ghost predicate Ends(s: State, s': State, i: nat, r: Req, complete: bool)
  {
    && |s'.slots| == |s.slots| && s'.init == s.init
    && (forall k :: 0 <= k < |s.slots| && k != i ==> s'.slots[k] == s.slots[k])
    && i < |s'.slots| && Done(s'.slots[i]) && s'.slots[i].status == (if complete then 200 else 500)
    && if complete then Logs(s.log, s'.log, i, r) else s'.log == s.log
  }

  predicate Logs(log: seq<Entry>, log': seq<Entry>, i: nat, r: Req)
  {
    |log'| == |log| + 1 && log'[..|log|] == log && log'[|log|].req == r && log'[|log|].slot == i
  }

  /** Nothing but context `i` and the ledger has changed. */
  ghost predicate SameButOne(s: State, s': State, i: nat)
  {
    && |s'.slots| == |s.slots| && s'.init == s.init && s'.log == s.log
    && forall k :: 0 <= k < |s.slots| && k != i ==> s'.slots[k] == s.slots[k]
  }

  lemma EndsLater(s: State, mid: State, s': State, i: nat, r: Req, complete: bool)
    requires SameButOne(s, mid, i) && Ends(mid, s', i, r, complete)
    ensures Ends(s, s', i, r, complete)
  {
  }

  /* --- States and steps without their insides --- */

  predicate Mark(s: State) { true }

  /** `s'` is the state after event `e`. Said so that a proof about many steps does not look inside
      each of them. */
  ghost predicate StepsTo(s: State, e: Event, s': State)
  {
    forall t: State {:trigger Mark(t)} :: Mark(t) && t == Step(s, e) ==> t == s'
  }

  /** `s'` is the state after the run `es`, said in the same way. */
  ghost predicate RunsTo(s: State, es: seq<Event>, s': State)
  {
    forall t: State {:trigger Mark(t)} :: Mark(t) && t == Run(s, es) ==> t == s'
  }

  /** `Attempting`, said in the same way. */
  ghost predicate Underway(s: State, i: nat, r: Req, j: nat, env: Env)
  {
    && i < |s.slots| && 0 < s.ledger.created && j <= RowCount(r)
    && forall t: State {:trigger Mark(t)} :: Mark(t) && t == s ==> Attempting(t, i, r, j, env)
  }

  lemma IsUnderway(s: State, i: nat, r: Req, j: nat, env: Env)
    requires Underway(s, i, r, j, env)
    ensures Attempting(s, i, r, j, env)
  {
    assert Mark(s);
  }

  lemma IsGoing(s: State, i: nat, r: Req, j: nat, env: Env)
    requires Underway(s, i, r, j, env)
    ensures Going(s, i, r, j, env)
  {
    IsUnderway(s, i, r, j, env);
  }

  /** The invariant of every run, said in the same way. */
  ghost predicate Sound(s: State)
  {
    forall t: State {:trigger Mark(t)} :: Mark(t) && t == s ==> Serializability.Inv(t)
  }

  lemma IsSound(s: State)
    requires Sound(s)
    ensures Serializability.Inv(s)
  {
    assert Mark(s);
  }

  lemma StepTaken(s: State, e: Event, s': State)
    requires StepsTo(s, e, s')
    ensures s' == Step(s, e)
  {
    assert Mark(Step(s, e));
  }

  lemma RunTaken(s: State, es: seq<Event>, s': State)
    requires RunsTo(s, es, s')
    ensures s' == Run(s, es)
  {
    assert Mark(Run(s, es));
  }

  lemma TakeStep(s: State, e: Event) returns (s': State)
    ensures StepsTo(s, e, s')
  {
    s' := Step(s, e);
  }

  lemma RunOn(s: State, es: seq<Event>, mid: State, e: Event, s': State)
    requires RunsTo(s, es, mid) && StepsTo(mid, e, s')
    ensures RunsTo(s, es + [e], s')
  {
    RunTaken(s, es, mid);
    StepTaken(mid, e, s');
    assert (es + [e])[..|es|] == es;
  }

  lemma RunJoin(s: State, es: seq<Event>, mid: State, later: seq<Event>, s': State)
    requires RunsTo(s, es, mid) && RunsTo(mid, later, s')
    ensures RunsTo(s, es + later, s')
  {
    RunTaken(s, es, mid);
    RunTaken(mid, later, s');
    RunConcat(s, es, later);
  }

  /* --- One read --- */

  /** The callback of read `j` on what the current database holds. */
  lemma ReadOutcome(s: State, i: nat, r: Req, j: nat, env: Env)
    requires Attempting(s, i, r, j, env) && j < RowCount(r)
    ensures var f := s.ledger.created - 1;
      var p := s.ledger.outstanding[f].pending;
      && CanFire(s, s.slots[i], p, |s.log|)
      && FireOutcome(s, s.slots[i], p, NoFault, |s.log|, env)
         == Fire(s.slots[i].ctx, p.cb, Lookup(Database(s), p.key), env)
      && p.key == RowRead(r, j)
  {
    var f := s.ledger.created - 1;
    var sl, p := s.slots[i], s.ledger.outstanding[f].pending;
    assert SlotInv(s.init, s.log, sl, p);
    assert Apply(Database(s), sl.tr.buffer) == Database(s);
  }

  /** A row that is missing or short ends the attempt with 500. */
  lemma MissingRowEnds(s: State, i: nat, r: Req, j: nat, env: Env)
    requires Underway(s, i, r, j, env) && j < RowCount(r) && !HasRow(Database(s), RowRead(r, j))
    ensures var s' := DeliverStep(s, s.ledger.created - 1, NoFault, |s.log|, env, Submitted);
      Ends(s, s', i, r, false) && s'.ledger.created == s.ledger.created && Balanced(s'.ledger)
  {
    IsUnderway(s, i, r, j, env);
    var f := s.ledger.created - 1;
    var p := s.ledger.outstanding[f].pending;
    ReadOutcome(s, i, r, j, env);
    ReadReacts(s.slots[i].ctx, p.key, p.cb, j, Lookup(Database(s), p.key), env);
    DeliverKeepsOwnership(s, f, NoFault, |s.log|, env, Submitted);
  }

  /** Heads stays with the context through a read. */
  lemma HeadsOn(c: Ctx, r: Req, k: Key, cb: Callback, j: nat, row: Row, env: Env)
    requires c.Valid() && Registered(c, cb) && AtRead(c, k, cb, j) && Heads(c, r, j, env) && Fits(k, row)
    ensures Heads(Fire(c, cb, Found(row), env).ctx, r, j + 1, env)
    ensures j + 1 == RowCount(r) && Fire(c, cb, Found(row), env).action.Commit? ==>
      RequestOf(Fire(c, cb, Found(row), env).ctx, env.now) == r
  {
  }

  /** A row that is there moves the attempt on. */
  lemma ReadMovesOn(s: State, i: nat, r: Req, j: nat, env: Env)
    requires Underway(s, i, r, j, env) && j < RowCount(r) && HasRow(Database(s), RowRead(r, j))
    ensures var s' := DeliverStep(s, s.ledger.created - 1, NoFault, |s.log|, env, Submitted);
      Underway(s', i, r, j + 1, env) && SameButOne(s, s', i) && s'.ledger.created == s.ledger.created + 1
  {
    IsUnderway(s, i, r, j, env);
    var f := s.ledger.created - 1;
    var sl, p := s.slots[i], s.ledger.outstanding[f].pending;
    var row := Database(s)[p.key];
    ReadOutcome(s, i, r, j, env);
    ReadReacts(sl.ctx, p.key, p.cb, j, Found(row), env);
    HeadsOn(sl.ctx, r, p.key, p.cb, j, row, env);
    DeliverKeepsInv(s, f, NoFault, |s.log|, env, Submitted);
    Submitting(s, i, f, p, env);
    MovedOn(s, DeliverStep(s, f, NoFault, |s.log|, env, Submitted), i, r, j, env, Fire(sl.ctx, p.cb, Found(row), env));
  }

  lemma MovedOn(s: State, s': State, i: nat, r: Req, j: nat, env: Env, out: Outcome<Ctx>)
    requires Going(s, i, r, j, env) && j < RowCount(r) && HasRow(Database(s), RowRead(r, j))
    requires SlotMoved(s, s', i, out, env)
    requires ReadCount(out.ctx) == RowCount(r) && Heads(out.ctx, r, j + 1, env)
    requires if j + 1 < RowCount(r) then out.action.Get? && AtRead(out.ctx, out.action.key, out.action.cb, j + 1)
             else out.action.Commit? && RequestOf(out.ctx, env.now) == r
    ensures Going(s', i, r, j + 1, env) && SameButOne(s, s', i) && s'.ledger.created == s.ledger.created + 1
  {
  }

  /** A read callback has gone on: its slot, and its new future. */
  ghost predicate SlotMoved(s: State, s': State, i: nat, out: Outcome<Ctx>, env: Env)
    requires i < |s.slots|
  {
    && !out.action.Respond?
    && s'.init == s.init && s'.log == s.log && |s'.slots| == |s.slots| && s'.slots == s.slots[i := s'.slots[i]]
    && s'.slots[i].ctx == out.ctx && s'.slots[i].account == s.slots[i].account
    && s'.slots[i].status == s.slots[i].status
    && s'.slots[i].tr.rv == Some(Version(s.slots[i].tr, |s.log|))
    && s'.slots[i].req == (if out.action.Commit? then Some(RequestOf(out.ctx, env.now)) else s.slots[i].req)
    && s'.ledger.created == s.ledger.created + 1
    && s.ledger.created in s'.ledger.outstanding
    && s'.ledger.outstanding[s.ledger.created] == Future(i, Await(out.action))
  }

  lemma Submitting(s: State, i: nat, f: nat, p: Pending, env: Env)
    requires Balanced(s.ledger) && f in s.ledger.outstanding && s.ledger.outstanding[f] == Future(i, p)
    requires i < |s.slots| && CanFire(s, s.slots[i], p, |s.log|) && p.AwaitGet?
    requires !FireOutcome(s, s.slots[i], p, NoFault, |s.log|, env).action.Respond?
    ensures SlotMoved(s, DeliverStep(s, f, NoFault, |s.log|, env, Submitted), i,
                      FireOutcome(s, s.slots[i], p, NoFault, |s.log|, env), env)
  {
  }

  /* --- The commit --- */

  /** The cluster has applied the commit behind future `f`. */
  ghost predicate Applied(s: State, s': State, f: nat, i: nat, r: Req)
  {
    && Logs(s.log, s'.log, i, r)
    && |s'.slots| == |s.slots| && s'.init == s.init && (forall k :: 0 <= k < |s.slots| ==> s'.slots[k] == s.slots[k])
    && f in s'.ledger.outstanding && s'.ledger.outstanding[f] == Future(i, AwaitReport(true))
  }

  /** It does apply it: nobody has written since the snapshot. */
  lemma CommitApplies(s: State, f: nat, i: nat, r: Req)
    requires f in s.ledger.outstanding && s.ledger.outstanding[f] == Future(i, AwaitCommit) && i < |s.slots|
    requires s.slots[i].req == Some(r) && s.slots[i].tr.rv == Some(|s.log|)
    ensures Applied(s, DecideStep(s, f, true, true), f, i, r)
  {
    assert NoConflict(s.log, |s.log|, s.slots[i].tr.readSet);
  }

  /** And the success is answered. */
  lemma ReportAnswers(s: State, f: nat, i: nat, v: nat, env: Env)
    requires Serializability.Inv(s) && f in s.ledger.outstanding
    requires s.ledger.outstanding[f] == Future(i, AwaitReport(true))
    ensures var s' := DeliverStep(s, f, NoFault, v, env, Submitted);
      && SameButOne(s, s', i) && i < |s'.slots| && Done(s'.slots[i]) && s'.slots[i].status == 200
  {
    assert SlotInv(s.init, s.log, s.slots[i], AwaitReport(true));
    CommitReacts(s.slots[i].ctx, true, env);
  }

  lemma AppliedEnds(s: State, mid: State, s': State, f: nat, i: nat, r: Req)
    requires Applied(s, mid, f, i, r) && SameButOne(mid, s', i)
    requires i < |s'.slots| && Done(s'.slots[i]) && s'.slots[i].status == 200
    ensures Ends(s, s', i, r, true)
  {
  }

  lemma CommitEnds(s: State, mid: State, s': State, d: Event, e: Event, f: nat, i: nat, r: Req, env: Env)
    requires Underway(s, i, r, RowCount(r), env) && StepsTo(s, d, mid) && StepsTo(mid, e, s')
    requires f == s.ledger.created - 1
    requires d == Decide(f, true, true) && e == Deliver(f, NoFault, |s.log|, env, Submitted)
    ensures Ends(s, s', i, r, true)
  {
    DecideApplies(s, mid, d, f, i, r, env);
    DecideIsSound(s, mid, d, f, i, r, env);
    ReportEnds(mid, s', e, f, i, |s.log|, env);
    AppliedEnds(s, mid, s', f, i, r);
  }

  lemma DecideApplies(s: State, mid: State, d: Event, f: nat, i: nat, r: Req, env: Env)
    requires Underway(s, i, r, RowCount(r), env) && f == s.ledger.created - 1
    requires StepsTo(s, d, mid) && d == Decide(f, true, true)
    ensures Applied(s, mid, f, i, r)
  {
    AwaitsCommit(s, i, r, env);
    StepTaken(s, d, mid);
    CommitApplies(s, f, i, r);
  }

  lemma AwaitsCommit(s: State, i: nat, r: Req, env: Env)
    requires Underway(s, i, r, RowCount(r), env)
    ensures var f := s.ledger.created - 1;
      && f in s.ledger.outstanding && s.ledger.outstanding[f] == Future(i, AwaitCommit)
      && s.slots[i].req == Some(r) && s.slots[i].tr.rv == Some(|s.log|)
  {
    IsGoing(s, i, r, RowCount(r), env);
  }

  lemma DecideIsSound(s: State, mid: State, d: Event, f: nat, i: nat, r: Req, env: Env)
    requires Underway(s, i, r, RowCount(r), env)
    requires StepsTo(s, d, mid) && d == Decide(f, true, true)
    ensures Sound(mid)
  {
    IsUnderway(s, i, r, RowCount(r), env);
    StepTaken(s, d, mid);
    DecideKeepsInv(s, f, true, true);
  }

  lemma ReportEnds(s: State, s': State, e: Event, f: nat, i: nat, v: nat, env: Env)
    requires Sound(s) && f in s.ledger.outstanding && s.ledger.outstanding[f] == Future(i, AwaitReport(true))
    requires StepsTo(s, e, s') && e == Deliver(f, NoFault, v, env, Submitted)
    ensures SameButOne(s, s', i) && i < |s'.slots| && Done(s'.slots[i]) && s'.slots[i].status == 200
  {
    IsSound(s);
    StepTaken(s, e, s');
    ReportAnswers(s, f, i, v, env);
  }

  /* --- The whole attempt --- */

  /** What read `j` does to an attempt. */
  ghost predicate ReadDone(s: State, s': State, i: nat, r: Req, j: nat, env: Env)
    requires j < RowCount(r)
  {
    if HasRow(Database(s), RowRead(r, j))
    then Underway(s', i, r, j + 1, env) && SameButOne(s, s', i) && s'.ledger.created == s.ledger.created + 1
    else Ends(s, s', i, r, false) && s'.ledger.created == s.ledger.created && Balanced(s'.ledger)
  }

  lemma OneRead(s: State, s': State, e: Event, i: nat, r: Req, j: nat, env: Env)
    requires Underway(s, i, r, j, env) && j < RowCount(r)
    requires StepsTo(s, e, s') && e == Deliver(s.ledger.created - 1, NoFault, |s.log|, env, Submitted)
    ensures ReadDone(s, s', i, r, j, env)
  {
    if HasRow(Database(s), RowRead(r, j)) {
      RowMovesOn(s, s', e, i, r, j, env);
    } else {
      NoRowEnds(s, s', e, i, r, j, env);
    }
  }

  lemma RowMovesOn(s: State, s': State, e: Event, i: nat, r: Req, j: nat, env: Env)
    requires Underway(s, i, r, j, env) && j < RowCount(r) && HasRow(Database(s), RowRead(r, j))
    requires StepsTo(s, e, s') && e == Deliver(s.ledger.created - 1, NoFault, |s.log|, env, Submitted)
    ensures Underway(s', i, r, j + 1, env) && SameButOne(s, s', i) && s'.ledger.created == s.ledger.created + 1
  {
    StepTaken(s, e, s');
    ReadMovesOn(s, i, r, j, env);
  }

  lemma NoRowEnds(s: State, s': State, e: Event, i: nat, r: Req, j: nat, env: Env)
    requires Underway(s, i, r, j, env) && j < RowCount(r) && !HasRow(Database(s), RowRead(r, j))
    requires StepsTo(s, e, s') && e == Deliver(s.ledger.created - 1, NoFault, |s.log|, env, Submitted)
    ensures Ends(s, s', i, r, false) && s'.ledger.created == s.ledger.created && Balanced(s'.ledger)
  {
    StepTaken(s, e, s');
    MissingRowEnds(s, i, r, j, env);
  }

  lemma NoFutureNoStep(s: State, f: nat, e: Event, s': State)
    requires Balanced(s.ledger) && s.ledger.created <= f && StepsTo(s, e, s')
    requires (e.Deliver? || e.Decide?) && e.f == f
    ensures s' == s
  {
    StepTaken(s, e, s');
    assert f !in s.ledger.outstanding;
  }

  /** The attempt after its first `j` reads: still going, or ended with 500 at a missing row. */
  ghost predicate Halfway(s: State, s': State, f: nat, i: nat, r: Req, j: nat, env: Env)
  {
    && j <= RowCount(r)
    && if forall k :: 0 <= k < j ==> HasRow(Database(s), RowRead(r, k))
       then Underway(s', i, r, j, env) && SameButOne(s, s', i) && s'.ledger.created == f + j + 1
       else Ends(s, s', i, r, false) && s'.ledger.created <= f + j && Balanced(s'.ledger)
  }

  lemma HalfwayOn(s: State, mid: State, s': State, e: Event, f: nat, i: nat, r: Req, k: nat, j: nat, env: Env)
    requires Halfway(s, mid, f, i, r, k, env) && k < RowCount(r) && j == k + 1
    requires StepsTo(mid, e, s') && e == Deliver(f + k, NoFault, |s.log|, env, Submitted)
    ensures Halfway(s, s', f, i, r, j, env)
  {
    if forall l :: 0 <= l < k ==> HasRow(Database(s), RowRead(r, l)) {
      OneRead(mid, s', e, i, r, k, env);
      HalfwayRead(s, mid, s', f, i, r, k, env);
    } else {
      HalfwayEnded(s, mid, f, i, r, k, j, env);
      NoFutureNoStep(mid, f + k, e, s');
    }
  }

  lemma HalfwayEnded(s: State, s': State, f: nat, i: nat, r: Req, k: nat, j: nat, env: Env)
    requires Halfway(s, s', f, i, r, k, env) && j == k + 1 <= RowCount(r)
    requires !forall l :: 0 <= l < k ==> HasRow(Database(s), RowRead(r, l))
    ensures Halfway(s, s', f, i, r, j, env) && s'.ledger.created <= f + k && Balanced(s'.ledger)
  {
  }

  lemma HalfwayRead(s: State, mid: State, s': State, f: nat, i: nat, r: Req, j: nat, env: Env)
    requires j < RowCount(r) && SameButOne(s, mid, i) && mid.ledger.created == f + j + 1
    requires forall k :: 0 <= k < j ==> HasRow(Database(s), RowRead(r, k))
    requires ReadDone(mid, s', i, r, j, env)
    ensures Halfway(s, s', f, i, r, j + 1, env)
  {
    if HasRow(Database(s), RowRead(r, j)) {
      assert forall k :: 0 <= k < j + 1 ==> HasRow(Database(s), RowRead(r, k));
    } else {
      EndsLater(s, mid, s', i, r, false);
    }
  }

  /** `s'` is the state after the first `j` reads, and is as it should be. */
  ghost predicate Reached(s: State, s': State, f: nat, v: nat, i: nat, r: Req, j: nat, env: Env)
  {
    forall t: State {:trigger Mark(t)} :: Mark(t) && t == s' ==>
      RunsTo(s, Reading(f, j, v, env), t) && Halfway(s, t, f, i, r, j, env)
  }

  lemma IsReached(s: State, s': State, f: nat, v: nat, i: nat, r: Req, j: nat, env: Env)
    requires Reached(s, s', f, v, i, r, j, env)
    ensures RunsTo(s, Reading(f, j, v, env), s') && Halfway(s, s', f, i, r, j, env)
  {
    assert Mark(s');
  }

  lemma {:induction false} ReadsReach(s: State, f: nat, v: nat, i: nat, r: Req, j: nat, env: Env) returns (s': State)
    requires Underway(s, i, r, 0, env) && j <= RowCount(r) && f == s.ledger.created - 1 && v == |s.log|
    ensures Reached(s, s', f, v, i, r, j, env)
  {
    if j == 0 {
      s' := s;
      NoReads(s, f, v, i, r, env);
    } else {
      var mid := ReadsReach(s, f, v, i, r, j - 1, env);
      s' := ReadsOn(s, mid, f, v, i, r, j - 1, j, env);
    }
  }

  lemma NoReads(s: State, f: nat, v: nat, i: nat, r: Req, env: Env)
    requires Underway(s, i, r, 0, env) && f == s.ledger.created - 1
    ensures Reached(s, s, f, v, i, r, 0, env)
  {
    assert Reading(f, 0, v, env) == [];
  }

  lemma ReadsOn(s: State, mid: State, f: nat, v: nat, i: nat, r: Req, k: nat, j: nat, env: Env) returns (s': State)
    requires j == k + 1 && k < RowCount(r) && v == |s.log| && Reached(s, mid, f, v, i, r, k, env)
    ensures Reached(s, s', f, v, i, r, j, env)
  {
    var e := Deliver(f + k, NoFault, v, env, Submitted);
    IsReached(s, mid, f, v, i, r, k, env);
    s' := TakeStep(mid, e);
    HalfwayOn(s, mid, s', e, f, i, r, k, j, env);
    ReadingOn(s, mid, s', e, f, v, k, j, env);
    BeReached(s, s', f, v, i, r, j, env);
  }

  lemma BeReached(s: State, s': State, f: nat, v: nat, i: nat, r: Req, j: nat, env: Env)
    requires RunsTo(s, Reading(f, j, v, env), s') && Halfway(s, s', f, i, r, j, env)
    ensures Reached(s, s', f, v, i, r, j, env)
  {
  }

  lemma ReadingOn(s: State, mid: State, s': State, e: Event, f: nat, v: nat, k: nat, j: nat, env: Env)
    requires RunsTo(s, Reading(f, k, v, env), mid) && StepsTo(mid, e, s')
    requires j == k + 1 && e == Deliver(f + k, NoFault, v, env, Submitted)
    ensures RunsTo(s, Reading(f, j, v, env), s')
  {
    assert Reading(f, j, v, env) == Reading(f, k, v, env) + [e];
    RunOn(s, Reading(f, k, v, env), mid, e, s');
  }

  /** From the last read to the end. */
  lemma LastStretch(s: State, mid: State, m: State, s': State, d: Event, e: Event, f: nat, i: nat, r: Req, env: Env)
    requires Halfway(s, mid, f, i, r, RowCount(r), env) && StepsTo(mid, d, m) && StepsTo(m, e, s')
    requires d == Decide(f + RowCount(r), true, true) && e == Deliver(f + RowCount(r), NoFault, |s.log|, env, Submitted)
    ensures Ends(s, s', i, r, AllRows(r, Database(s)))
  {
    if AllRows(r, Database(s)) {
      CommitEnds(mid, m, s', d, e, d.f, i, r, env);
      EndsLater(s, mid, s', i, r, true);
    } else {
      NoFutureNoStep(mid, d.f, d, m);
      NoFutureNoStep(m, e.f, e, s');
    }
  }

  lemma AttemptEnds(s: State, f: nat, v: nat, i: nat, r: Req, env: Env) returns (s': State)
    requires Underway(s, i, r, 0, env) && f == s.ledger.created - 1 && v == |s.log|
    ensures RunsTo(s, Attempt(f, RowCount(r), v, env), s')
    ensures Ends(s, s', i, r, AllRows(r, Database(s)))
  {
    var n := RowCount(r);
    var mid := ReadsReach(s, f, v, i, r, n, env);
    IsReached(s, mid, f, v, i, r, n, env);
    var d, e := Decide(f + n, true, true), Deliver(f + n, NoFault, v, env, Submitted);
    var m := TakeStep(mid, d);
    s' := TakeStep(m, e);
    LastStretch(s, mid, m, s', d, e, f, i, r, env);
    AttemptRuns(s, mid, m, s', d, e, f, n, v, env);
  }

  lemma AttemptRuns(s: State, mid: State, m: State, s': State, d: Event, e: Event, f: nat, n: nat, v: nat, env: Env)
    requires RunsTo(s, Reading(f, n, v, env), mid) && StepsTo(mid, d, m) && StepsTo(m, e, s')
    requires d == Decide(f + n, true, true) && e == Deliver(f + n, NoFault, v, env, Submitted)
    ensures RunsTo(s, Attempt(f, n, v, env), s')
  {
    var es := Reading(f, n, v, env);
    assert Attempt(f, n, v, env) == es + [d] + [e];
    RunOn(s, es, mid, d, m);
    RunOn(s, es + [d], m, e, s');
  }

  /* --- From any state of any run --- */

  /** A fresh attempt: the first read is pending, in a fresh transaction. */
  lemma FreshAttempt(s: State, i: nat, env: Env)
    requires Serializability.Inv(s) && i < |s.slots| && s.slots[i].status == 0 && s.slots[i].tr == FRESH
    requires s.ledger.created > 0 && s.ledger.created - 1 in s.ledger.outstanding
    requires var fut := s.ledger.outstanding[s.ledger.created - 1];
      fut.slot == i && fut.pending.AwaitGet? && AtRead(s.slots[i].ctx, fut.pending.key, fut.pending.cb, 0)
    ensures Attempting(s, i, Wanted(s.slots[i].ctx, env), 0, env)
  {
  }

  /** The events of a request that meets no error, from its arrival to its answer. */
  function Undisturbed(s: State, c: Ctx, env: Env): seq<Event>
  {
    [Start(c, true, true, Submitted)] + Attempt(s.ledger.created, RowCount(Wanted(c, env)), |s.log|, env)
  }

  lemma StartAttempts(s: State, c: Ctx, env: Env)
    requires Serializability.Inv(s) && Initial(c)
    ensures var s' := StartStep(s, c, true, true, Submitted);
      && Attempting(s', |s.slots|, Wanted(c, env), 0, env)
      && s'.log == s.log && s'.init == s.init && s'.ledger.created == s.ledger.created + 1
      && |s'.slots| == |s.slots| + 1 && forall k :: 0 <= k < |s.slots| ==> s'.slots[k] == s.slots[k]
  {
    StartKeepsInv(s, c, true, true, Submitted);
    FreshAttempt(StartStep(s, c, true, true, Submitted), |s.slots|, env);
  }

  lemma LastEntry(log: seq<Entry>, log': seq<Entry>, db: Db, i: nat, r: Req)
    requires Logs(log, log', i, r) && Replays(log'[|log|], db)
    ensures Effect(r, db) == Some(log'[|log|].writes) && log' == log + [Entry(r, log'[|log|].writes, i)]
  {
  }

  /** The end of an attempt, with the commit spelled out. */
  ghost predicate EndsWith(log: seq<Entry>, s': State, i: nat, r: Req, effect: Option<seq<Write>>)
  {
    && i < |s'.slots| && Done(s'.slots[i])
    && match effect
       case Some(ws) => s'.slots[i].status == 200 && s'.log == log + [Entry(r, ws, i)]
       case None => s'.slots[i].status == 500 && s'.log == log
  }

  lemma SerialLast(init: Db, log: seq<Entry>, log': seq<Entry>, i: nat, r: Req)
    requires Logs(log, log', i, r) && SerialLog(init, log')
    ensures Replays(log'[|log|], DbAt(init, log, |log|))
  {
    var n := |log|;
    SameDb(init, log, log');
    ReplaysAt(init, log', n, DbAt(init, log, n));
  }

  lemma SameDb(init: Db, log: seq<Entry>, log': seq<Entry>)
    requires |log'| == |log| + 1 && log'[..|log|] == log
    ensures DbAt(init, log', |log|) == DbAt(init, log, |log|)
  {
    assert log' == log + [log'[|log|]];
    DbAtPrefix(init, log, log'[|log|], |log|);
  }

  lemma ReplaysAt(init: Db, log: seq<Entry>, n: nat, db: Db)
    requires SerialLog(init, log) && n < |log| && db == DbAt(init, log, n)
    ensures Replays(log[n], db)
  {
  }

  lemma EndsAs(s: State, s': State, i: nat, r: Req, db: Db, complete: bool)
    requires Ends(s, s', i, r, complete)
    requires if complete then Replays(s'.log[|s.log|], db) else Effect(r, db).None?
    ensures EndsWith(s.log, s', i, r, Effect(r, db))
  {
    if complete { LastEntry(s.log, s'.log, db, i, r); }
  }

  lemma EndsSerially(s: State, s': State, i: nat, r: Req)
    requires Ends(s, s', i, r, AllRows(r, Database(s))) && SerialLog(s'.init, s'.log)
    ensures EndsWith(s.log, s', i, r, Effect(r, Database(s)))
  {
    EffectIff(r, Database(s));
    if AllRows(r, Database(s)) { SerialLast(s.init, s.log, s'.log, i, r); }
    EndsAs(s, s', i, r, Database(s), AllRows(r, Database(s)));
  }

  /** Main result: from any state of any run, a request that meets no error is answered with 200 and
      has added exactly its own commit to the log, if the rows it reads are there; otherwise it is
      answered with 500 and has added nothing. Nobody else's request is touched. */
  lemma RequestsComplete(db: Db, es: seq<Event>, c: Ctx, env: Env)
    requires Initial(c)
    ensures var s := Run(InitialState(db), es);
      var s', i, r := Run(InitialState(db), es + Undisturbed(s, c, env)), |s.slots|, Wanted(c, env);
      && |s'.slots| == i + 1 && (forall k :: 0 <= k < i ==> s'.slots[k] == s.slots[k])
      && EndsWith(s.log, s', i, r, Effect(r, Database(s)))
  {
    var s := Run(InitialState(db), es);
    RunKeepsInv(db, es);
    var s' := StartEnds(s, c, env);
    FromRun(db, es, Undisturbed(s, c, env), s, s');
    EndsSerially(s.(slots := s'.slots), s', |s.slots|, Wanted(c, env));
  }

  /** A run that goes on from a run is a run. */
  lemma FromRun(db: Db, es: seq<Event>, later: seq<Event>, s: State, s': State)
    requires s == Run(InitialState(db), es) && RunsTo(s, later, s')
    ensures s' == Run(InitialState(db), es + later) && SerialLog(s'.init, s'.log)
  {
    RunTaken(s, later, s');
    RunConcat(InitialState(db), es, later);
    RunKeepsInv(db, es + later);
  }

  lemma StartEnds(s: State, c: Ctx, env: Env) returns (s': State)
    requires Serializability.Inv(s) && Initial(c)
    ensures RunsTo(s, Undisturbed(s, c, env), s')
    ensures |s'.slots| == |s.slots| + 1 && forall k :: 0 <= k < |s.slots| ==> s'.slots[k] == s.slots[k]
    ensures Ends(s.(slots := s'.slots), s', |s.slots|, Wanted(c, env), AllRows(Wanted(c, env), Database(s)))
  {
    var start := Start(c, true, true, Submitted);
    var mid := TakeStep(s, start);
    var r := StartedAttempt(s, mid, c, env);
    s' := AttemptEnds(mid, s.ledger.created, |s.log|, |s.slots|, r, env);
    assert RunsTo(s, [start], mid) by { RunOne(s, start, mid); }
    RunJoin(s, [start], mid, Attempt(s.ledger.created, RowCount(r), |s.log|, env), s');
  }

  lemma RunOne(s: State, e: Event, s': State)
    requires StepsTo(s, e, s')
    ensures RunsTo(s, [e], s')
  {
    StepTaken(s, e, s');
    assert [e][..0] == [];
    assert Run(s, [e]) == Step(Run(s, []), e);
  }

  lemma StartedAttempt(s: State, s': State, c: Ctx, env: Env) returns (r: Req)
    requires Serializability.Inv(s) && Initial(c) && StepsTo(s, Start(c, true, true, Submitted), s')
    ensures r == Wanted(c, env) && Underway(s', |s.slots|, r, 0, env)
    ensures s'.log == s.log && s'.init == s.init && s'.ledger.created == s.ledger.created + 1
    ensures |s'.slots| == |s.slots| + 1 && forall k :: 0 <= k < |s.slots| ==> s'.slots[k] == s.slots[k]
  {
    StepTaken(s, Start(c, true, true, Submitted), s');
    StartAttempts(s, c, env);
    r := Wanted(c, env);
  }

  /* --- After a conflict --- */

  /** The events after a commit that was reported as failed, by a conflict or with an unknown result:
      its report, then `on_error`, then another attempt. */
  function AfterConflict(s: State, f: nat, c: Ctx, env: Env): seq<Event>
  {
    [Deliver(f, NoFault, |s.log|, env, Submitted), Deliver(s.ledger.created, NoFault, |s.log|, env, Submitted)]
    + Attempt(s.ledger.created + 1, RowCount(Wanted(c, env)), |s.log|, env)
  }

  /** Context `i` waits, unanswered, for future `f`, of kind `p`. */
  predicate Waits(s: State, f: nat, i: nat, p: Pending)
  {
    i < |s.slots| && s.slots[i].status == 0 && f in s.ledger.outstanding && s.ledger.outstanding[f] == Future(i, p)
  }

  /** Context `i`, still unanswered, waits for `on_error` in the newest future. */
  ghost predicate Erring(s: State, s': State, i: nat)
    requires i < |s.slots|
  {
    && Sound(s') && SameButOne(s, s', i) && Waits(s', s.ledger.created, i, AwaitOnError)
    && s'.slots[i].ctx == s.slots[i].ctx && s'.ledger.created == s.ledger.created + 1
  }

  /** A failed report is followed by `on_error`. */
  lemma ReportFails(s: State, s': State, d: Event, f: nat, i: nat, env: Env)
    requires Sound(s) && Waits(s, f, i, AwaitReport(false))
    requires StepsTo(s, d, s') && d == Deliver(f, NoFault, |s.log|, env, Submitted)
    ensures Erring(s, s', i)
  {
    IsSound(s);
    StepTaken(s, d, s');
    assert SlotInv(s.init, s.log, s.slots[i], AwaitReport(false));
    CommitReacts(s.slots[i].ctx, false, env);
    DeliverKeepsInv(s, f, NoFault, |s.log|, env, Submitted);
  }

  /** Context `i` has been reset and starts over, on the same parameters. */
  ghost predicate Restarted(s: State, s': State, i: nat, r: Req)
  {
    && SameButOne(s, s', i) && i < |s'.slots| && s'.ledger.created == s.ledger.created + 1
    && s'.slots[i].tr == FRESH && s'.slots[i].resets == s.slots[i].resets + 1 && s'.slots[i].status == 0
    && s.ledger.created in s'.ledger.outstanding
  }

  lemma ErrorRestarts(s: State, f: nat, i: nat, env: Env)
    requires Serializability.Inv(s) && Waits(s, f, i, AwaitOnError)
    ensures var s' := DeliverStep(s, f, NoFault, |s.log|, env, Submitted);
      && Restarted(s, s', i, Wanted(s.slots[i].ctx, env))
      && Wanted(s'.slots[i].ctx, env) == Wanted(s.slots[i].ctx, env)
      && var fut := s'.ledger.outstanding[s.ledger.created];
         fut.slot == i && fut.pending.AwaitGet? && AtRead(s'.slots[i].ctx, fut.pending.key, fut.pending.cb, 0)
  {
    assert SlotInv(s.init, s.log, s.slots[i], AwaitOnError);
    ErrorReacts(s.slots[i].ctx, true, env);
  }

  lemma ErringAttempts(s: State, s': State, e: Event, f: nat, i: nat, r: Req, env: Env)
    requires Sound(s) && Waits(s, f, i, AwaitOnError) && r == Wanted(s.slots[i].ctx, env)
    requires StepsTo(s, e, s') && e == Deliver(f, NoFault, |s.log|, env, Submitted)
    ensures Underway(s', i, r, 0, env) && SameButOne(s, s', i) && s'.ledger.created == s.ledger.created + 1
  {
    IsSound(s);
    StepTaken(s, e, s');
    ErrorRestarts(s, f, i, env);
    DeliverKeepsInv(s, f, NoFault, |s.log|, env, Submitted);
    FreshAttempt(s', i, env);
  }

  /** Main result: from any state of any run in which a request waits for a commit that failed, its
      report, `on_error` and one attempt without errors end like a first attempt. */
  lemma RetriesComplete(db: Db, es: seq<Event>, f: nat, env: Env)
    requires var s := Run(InitialState(db), es);
      f in s.ledger.outstanding && s.ledger.outstanding[f].pending == AwaitReport(false)
    ensures var s := Run(InitialState(db), es);
      var i := s.ledger.outstanding[f].slot;
      i < |s.slots| &&
      var c := s.slots[i].ctx;
      var s', r := Run(InitialState(db), es + AfterConflict(s, f, c, env)), Wanted(c, env);
      && |s'.slots| == |s.slots| && (forall k :: 0 <= k < |s.slots| && k != i ==> s'.slots[k] == s.slots[k])
      && EndsWith(s.log, s', i, r, Effect(r, Database(s)))
  {
    var s := Run(InitialState(db), es);
    var i := s.ledger.outstanding[f].slot;
    RunKeepsInv(db, es);
    WaitingIsUnanswered(db, es, f);
    var s' := RetryEnds(s, f, i, env);
    FromRun(db, es, AfterConflict(s, f, s.slots[i].ctx, env), s, s');
    EndsSerially(s, s', i, Wanted(s.slots[i].ctx, env));
  }

  lemma WaitingIsUnanswered(db: Db, es: seq<Event>, f: nat)
    requires f in Run(InitialState(db), es).ledger.outstanding
    ensures var s := Run(InitialState(db), es);
      s.ledger.outstanding[f].slot < |s.slots| && s.slots[s.ledger.outstanding[f].slot].status == 0
  {
    var s := Run(InitialState(db), es);
    RunsAreLinear(db, es);
    RunsAreAccounted(db, es);
    assert Live(s.slots[s.ledger.outstanding[f].slot]) && Accounted(s, s.ledger.outstanding[f].slot);
  }

  lemma RetryEnds(s: State, f: nat, i: nat, env: Env) returns (s': State)
    requires Sound(s) && Waits(s, f, i, AwaitReport(false))
    ensures RunsTo(s, AfterConflict(s, f, s.slots[i].ctx, env), s')
    ensures var r := Wanted(s.slots[i].ctx, env); Ends(s, s', i, r, AllRows(r, Database(s)))
  {
    var v, g, r := |s.log|, s.ledger.created, Wanted(s.slots[i].ctx, env);
    var d, e := Deliver(f, NoFault, v, env, Submitted), Deliver(g, NoFault, v, env, Submitted);
    var next := RetryStarts(s, f, i, r, d, e, env);
    s' := AttemptFollows(s, next, g + 1, v, i, r, env);
    var es := Attempt(g + 1, RowCount(r), v, env);
    assert AfterConflict(s, f, s.slots[i].ctx, env) == [d, e] + es;
    RunJoin(s, [d, e], next, es, s');
  }

  lemma AttemptFollows(s: State, next: State, f: nat, v: nat, i: nat, r: Req, env: Env) returns (s': State)
    requires Underway(next, i, r, 0, env) && f == next.ledger.created - 1 && v == |next.log| && SameButOne(s, next, i)
    ensures RunsTo(next, Attempt(f, RowCount(r), v, env), s')
    ensures Ends(s, s', i, r, AllRows(r, Database(s)))
  {
    s' := AttemptEnds(next, f, v, i, r, env);
    EndsLater(s, next, s', i, r, AllRows(r, Database(s)));
  }

  lemma RetryStarts(s: State, f: nat, i: nat, r: Req, d: Event, e: Event, env: Env) returns (next: State)
    requires Sound(s) && Waits(s, f, i, AwaitReport(false)) && r == Wanted(s.slots[i].ctx, env)
    requires d == Deliver(f, NoFault, |s.log|, env, Submitted)
    requires e == Deliver(s.ledger.created, NoFault, |s.log|, env, Submitted)
    ensures RunsTo(s, [d, e], next) && Underway(next, i, r, 0, env)
    ensures SameButOne(s, next, i) && next.ledger.created == s.ledger.created + 2
  {
    var mid := TakeStep(s, d);
    ReportFails(s, mid, d, f, i, env);
    next := TakeStep(mid, e);
    ErringAttempts(mid, next, e, s.ledger.created, i, r, env);
    RunBoth(s, d, mid, e, next);
  }

  lemma RunBoth(s: State, d: Event, mid: State, e: Event, s': State)
    requires StepsTo(s, d, mid) && StepsTo(mid, e, s')
    ensures RunsTo(s, [d, e], s')
  {
    RunOne(s, d, mid);
    RunOn(s, [d], mid, e, s');
    assert [d] + [e] == [d, e];
  }
}
