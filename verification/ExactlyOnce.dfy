/** How often a request is applied, and what its response says about it. */
module ExactlyOnce {
  import opened Serial
  import opened Chains
  import opened Engine
  import opened Ownership

  /** How many commits in the log came from request `i`. */
  function Commits(log: seq<Entry>, i: nat): nat
  {
    if log == [] then 0
    else Commits(log[..|log| - 1], i) + (if log[|log| - 1].slot == i then 1 else 0)
  }

  /** A successful commit of request `i` is on its way to the callback. */
  ghost predicate Acknowledging(s: State, i: nat)
  {
    exists f :: f in s.ledger.outstanding && s.ledger.outstanding[f] == Future(i, AwaitReport(true))
  }

  /** The commits of a request: one per commit with an unknown result, and one for the success. */
  ghost predicate Accounted(s: State, i: nat)
    requires i < |s.slots|
  {
    var sl := s.slots[i];
    && (Live(sl) ==> sl.status == 0)
    && Commits(s.log, i) == sl.unknowns + (if sl.status == 200 || Acknowledging(s, i) then 1 else 0)
  }

  ghost predicate AllAccounted(s: State)
  {
    && (forall i :: 0 <= i < |s.slots| ==> Accounted(s, i))
    && (forall i: nat :: |s.slots| <= i ==> Commits(s.log, i) == 0)
  }

  lemma CommitsAppend(log: seq<Entry>, e: Entry, i: nat)
    ensures Commits(log + [e], i) == Commits(log, i) + (if e.slot == i then 1 else 0)
  {
    assert (log + [e])[..|log|] == log;
  }

  lemma DecideKeepsAccounts(s: State, f: nat, apply: bool, report: bool)
    requires Linear(s) && AllAccounted(s)
    ensures AllAccounted(DecideStep(s, f, apply, report))
  {
    var s', out := DecideStep(s, f, apply, report), s.ledger.outstanding;
    if f in out && out[f].pending.AwaitCommit? {
      var i, out' := out[f].slot, s'.ledger.outstanding;
      forall j: nat
        ensures Commits(s'.log, j) == Commits(s.log, j) + (if |s'.log| > |s.log| && j == i then 1 else 0)
      {
        if |s'.log| > |s.log| { CommitsAppend(s.log, s'.log[|s.log|], j); }
      }
      forall j | 0 <= j < |s'.slots|
        ensures Accounted(s', j)
      {
        assert Accounted(s, j);
        if j == i {
          assert !Acknowledging(s, i);
          assert Live(s.slots[i]);
          assert out'[f].pending == AwaitReport(true) ==> Acknowledging(s', i);
          assert Acknowledging(s', i) ==> out'[f].pending == AwaitReport(true);
        } else {
          SameAcknowledging(s, s', j, f);
        }
      }
    }
  }

  /** Acknowledgements of other requests are not affected by what happens to future `f`. */
  lemma SameAcknowledging(s: State, s': State, j: nat, f: nat)
    requires forall g :: g in s.ledger.outstanding && g != f ==>
      g in s'.ledger.outstanding && s'.ledger.outstanding[g] == s.ledger.outstanding[g]
    requires forall g :: g in s'.ledger.outstanding && s'.ledger.outstanding[g] == Future(j, AwaitReport(true)) ==>
      g in s.ledger.outstanding && s.ledger.outstanding[g] == s'.ledger.outstanding[g]
    requires f in s.ledger.outstanding ==> s.ledger.outstanding[f].slot != j
    ensures Acknowledging(s', j) <==> Acknowledging(s, j)
  {
    if Acknowledging(s, j) {
      var g :| g in s.ledger.outstanding && s.ledger.outstanding[g] == Future(j, AwaitReport(true));
      assert g in s'.ledger.outstanding && s'.ledger.outstanding[g] == Future(j, AwaitReport(true));
    }
    if Acknowledging(s', j) {
      var g :| g in s'.ledger.outstanding && s'.ledger.outstanding[g] == Future(j, AwaitReport(true));
      assert g in s.ledger.outstanding && s.ledger.outstanding[g] == Future(j, AwaitReport(true));
    }
  }

  /** Only a successful commit is answered with 200, and it is answered at once. */
  lemma FireStatus(s: State, sl: Slot, p: Pending, fault: Fault, rv: nat, env: Env)
    requires CanFire(s, sl, p, rv) && (p.AwaitGet? ==> p.cb != OnCommit)
    ensures var a := FireOutcome(s, sl, p, fault, rv, env).action;
      && (a.Respond? && a.status == 200 <==> p == AwaitReport(true))
      && (a.Respond? ==> a.status != 0)
  {
  }

  ghost predicate NoCommitGets(s: State)
  {
    forall f :: f in s.ledger.outstanding && s.ledger.outstanding[f].pending.AwaitGet? ==>
      s.ledger.outstanding[f].pending.cb != OnCommit
  }

  lemma DeliverKeepsAccounts(s: State, f: nat, fault: Fault, rv: nat, env: Env, sub: Submission)
    requires Linear(s) && Balanced(s.ledger) && AllAccounted(s) && NoCommitGets(s)
    ensures AllAccounted(DeliverStep(s, f, fault, rv, env, sub))
  {
    var s', out := DeliverStep(s, f, fault, rv, env, sub), s.ledger.outstanding;
    if f in out && CanFire(s, s.slots[out[f].slot], out[f].pending, rv) {
      var Future(i, p) := out[f];
      var a := FireOutcome(s, s.slots[i], p, fault, rv, env).action;
      FireStatus(s, s.slots[i], p, fault, rv, env);
      assert s.ledger.created !in out;
      forall j | 0 <= j < |s'.slots|
        ensures Accounted(s', j)
      {
        assert Accounted(s, j);
        if j == i {
          assert Acknowledging(s, i) <==> p == AwaitReport(true);
          assert !Acknowledging(s', i);
        } else {
          SameAcknowledging(s, s', j, f);
        }
      }
    }
  }

  lemma StartKeepsAccounts(s: State, c: Ctx, alloc: bool, create: bool, sub: Submission)
    requires Linear(s) && Balanced(s.ledger) && AllAccounted(s)
    ensures AllAccounted(StartStep(s, c, alloc, create, sub))
  {
    var s' := StartStep(s, c, alloc, create, sub);
    forall j | 0 <= j < |s'.slots|
      ensures Accounted(s', j)
    {
      if j < |s.slots| {
        assert Accounted(s, j);
        StartKeepsAccount(s, c, alloc, create, sub, j);
      } else {
        StartedAccount(s, c, alloc, create, sub);
      }
    }
  }

  lemma StartKeepsAccount(s: State, c: Ctx, alloc: bool, create: bool, sub: Submission, j: nat)
    requires Balanced(s.ledger) && j < |s.slots| && Accounted(s, j)
    ensures Accounted(StartStep(s, c, alloc, create, sub), j)
  {
    assert s.ledger.created !in s.ledger.outstanding;
    SameAcknowledging(s, StartStep(s, c, alloc, create, sub), j, s.ledger.created);
  }

  lemma StartedAccount(s: State, c: Ctx, alloc: bool, create: bool, sub: Submission)
    requires Linear(s) && Commits(s.log, |s.slots|) == 0
    ensures var s' := StartStep(s, c, alloc, create, sub);
      |s'.slots| > |s.slots| ==> |s'.slots| == |s.slots| + 1 && Accounted(s', |s.slots|)
  {
    var s' := StartStep(s, c, alloc, create, sub);
    assert !Acknowledging(s', |s.slots|);
  }

  lemma FireGets(c: Ctx, cb: Callback, r: FutureResult, env: Env)
    requires c.Valid() && Registered(c, cb)
    ensures Fire(c, cb, r, env).action.Get? ==> Fire(c, cb, r, env).action.cb != OnCommit
  {
  }

  lemma FireOutcomeGets(s: State, sl: Slot, p: Pending, fault: Fault, rv: nat, env: Env)
    requires CanFire(s, sl, p, rv)
    ensures var a := FireOutcome(s, sl, p, fault, rv, env).action; a.Get? ==> a.cb != OnCommit
  {
    match p
    case AwaitGet(k, cb) => FireGets(sl.ctx, cb, ReadResult(s, sl.tr, Version(sl.tr, rv), k, fault), env);
    case AwaitReport(ok) => FireGets(sl.ctx, OnCommit, if ok then Ready else Failed, env);
    case AwaitOnError => FireGets(sl.ctx, OnErrorRetry, if fault.NoFault? then Ready else Failed, env);
  }

  lemma DeliverKeepsGets(s: State, f: nat, fault: Fault, rv: nat, env: Env, sub: Submission)
    requires Balanced(s.ledger) && NoCommitGets(s)
    ensures NoCommitGets(DeliverStep(s, f, fault, rv, env, sub))
  {
    if f in s.ledger.outstanding {
      var Future(i, p) := s.ledger.outstanding[f];
      if i < |s.slots| && CanFire(s, s.slots[i], p, rv) {
        var a := FireOutcome(s, s.slots[i], p, fault, rv, env).action;
        FireOutcomeGets(s, s.slots[i], p, fault, rv, env);
        var out := Fired(s.ledger, f, i, a, sub).outstanding;
        forall g | g in out && out[g].pending.AwaitGet? ensures out[g].pending.cb != OnCommit {
          FiredFutures(s.ledger, f, i, a, sub, g);
        }
      }
    }
  }

  lemma StepKeepsAccounts(s: State, e: Event)
    requires Linear(s) && Balanced(s.ledger) && AllAccounted(s) && NoCommitGets(s)
    ensures AllAccounted(Step(s, e)) && NoCommitGets(Step(s, e))
  {
    match e
    case Start(c, alloc, create, sub) => StartKeepsAccounts(s, c, alloc, create, sub);
    case Deliver(f, fault, rv, env, sub) =>
      DeliverKeepsAccounts(s, f, fault, rv, env, sub);
      DeliverKeepsGets(s, f, fault, rv, env, sub);
    case Decide(f, apply, report) => DecideKeepsAccounts(s, f, apply, report);
  }

  lemma {:induction false} RunsAreAccounted(db: Db, es: seq<Event>)
    ensures AllAccounted(Run(InitialState(db), es)) && NoCommitGets(Run(InitialState(db), es))
  {
    if es != [] {
      var n := |es| - 1;
      RunsAreAccounted(db, es[..n]);
      RunsAreLinear(db, es[..n]);
      StepKeepsAccounts(Run(InitialState(db), es[..n]), es[n]);
    }
  }

  /** Main result: a finished request without an unknown commit was applied exactly once if it
      was answered with 200 and not at all otherwise; each unknown commit adds one. */
  lemma ResponsesTellTheTruth(db: Db, es: seq<Event>, i: nat)
    requires i < |Run(InitialState(db), es).slots|
    requires Done(Run(InitialState(db), es).slots[i])
    ensures var s := Run(InitialState(db), es);
      Commits(s.log, i) == s.slots[i].unknowns + (if s.slots[i].status == 200 then 1 else 0)
  {
    var s := Run(InitialState(db), es);
    RunsAreAccounted(db, es);
    RunsAreLinear(db, es);
    assert Accounted(s, i);
  }
}
