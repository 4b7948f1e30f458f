/** Which contexts wait for nothing: the callers of `submit_future` ignore what it returns, so a
    context whose latest submission failed is never called back. */
module Stranding {
  import opened Words
  import opened Serial
  import opened Chains
  import opened Engine
  import opened Ownership

  /** The submission that event `e` makes for context `i`, if it makes one: the first read of a
      request, or what a callback ends with unless that is a response. */
  ghost function SubmissionOf(s: State, e: Event, i: nat): Option<Submission>
  {
    match e
    case Start(c, alloc, create, sub) =>
      if Initial(c) && alloc && create && i == |s.slots| then Some(sub) else None
    case Deliver(f, fault, rv, env, sub) =>
      if f in s.ledger.outstanding && Resumes(s, f, fault, rv, env) && s.ledger.outstanding[f].slot == i
      then Some(sub) else None
    case Decide(_, _, _) => None
  }

  /** Future `f` fires, and its callback goes on. */
  ghost predicate Resumes(s: State, f: nat, fault: Fault, rv: nat, env: Env)
    requires f in s.ledger.outstanding
  {
    var Future(i, p) := s.ledger.outstanding[f];
    i < |s.slots| && CanFire(s, s.slots[i], p, rv) && !FireOutcome(s, s.slots[i], p, fault, rv, env).action.Respond?
  }

  ghost function LatestSubmission(db: Db, es: seq<Event>, i: nat): Option<Submission>
  {
    if es == [] then None
    else
      var before := es[..|es| - 1];
      var now := SubmissionOf(Run(InitialState(db), before), es[|es| - 1], i);
      if now.Some? then now else LatestSubmission(db, before, i)
  }

  /** A live context waits for a future exactly when its latest submission, `l`, succeeded. */
  ghost predicate WaitsIff(s: State, i: nat, l: Option<Submission>)
  {
    i < |s.slots| && Live(s.slots[i]) ==> l.Some? && (Quiet(s, i) <==> !l.value.Submitted?)
  }

  lemma StartWaits(s: State, c: Ctx, alloc: bool, create: bool, sub: Submission, i: nat, l: Option<Submission>)
    requires Linear(s) && Balanced(s.ledger) && WaitsIff(s, i, l)
    ensures var now := SubmissionOf(s, Start(c, alloc, create, sub), i);
      WaitsIff(StartStep(s, c, alloc, create, sub), i, if now.Some? then now else l)
  {
    var s' := StartStep(s, c, alloc, create, sub);
    if i < |s.slots| {
      StartKeepsQuiet(s, c, alloc, create, sub, i);
    } else if |s.slots| < |s'.slots| && i == |s.slots| && sub.Submitted? && alloc && create {
      assert s.ledger.created in s'.ledger.outstanding;
    }
  }

  lemma StartKeepsQuiet(s: State, c: Ctx, alloc: bool, create: bool, sub: Submission, i: nat)
    requires Linear(s) && Balanced(s.ledger) && i < |s.slots|
    ensures Quiet(StartStep(s, c, alloc, create, sub), i) <==> Quiet(s, i)
  {
    var s' := StartStep(s, c, alloc, create, sub);
    if !Quiet(s, i) {
      var g :| g in s.ledger.outstanding && s.ledger.outstanding[g].slot == i;
      StartKeepsFuture(s, c, alloc, create, sub, g);
    }
  }

  lemma FiredQuiet(l: Ledger, f: nat, i: nat, a: Action, sub: Submission)
    requires Balanced(l) && f in l.outstanding && l.outstanding[f].slot == i && !a.Respond?
    requires forall g :: g in l.outstanding && l.outstanding[g].slot == i ==> g == f
    ensures (forall g :: g in Fired(l, f, i, a, sub).outstanding ==> Fired(l, f, i, a, sub).outstanding[g].slot != i)
       <==> !sub.Submitted?
  {
    var out := Fired(l, f, i, a, sub).outstanding;
    if sub.Submitted? {
      assert l.created in out && out[l.created].slot == i;
    } else {
      forall g | g in out ensures out[g].slot != i {
        assert g in l.outstanding && g != f && out[g] == l.outstanding[g];
      }
    }
  }

  /** A callback of the context itself: it responds, or it goes on with a submission. */
  lemma OwnDeliverWaits(s: State, f: nat, fault: Fault, rv: nat, env: Env, sub: Submission, l: Option<Submission>)
    requires Linear(s) && Balanced(s.ledger) && f in s.ledger.outstanding
    requires CanFire(s, s.slots[s.ledger.outstanding[f].slot], s.ledger.outstanding[f].pending, rv)
    ensures WaitsIff(DeliverStep(s, f, fault, rv, env, sub), s.ledger.outstanding[f].slot,
                     if Resumes(s, f, fault, rv, env) then Some(sub) else l)
  {
    var Future(i, p) := s.ledger.outstanding[f];
    var a := FireOutcome(s, s.slots[i], p, fault, rv, env).action;
    if !a.Respond? { FiredQuiet(s.ledger, f, i, a, sub); }
  }

  lemma OtherDeliverWaits(s: State, f: nat, fault: Fault, rv: nat, env: Env, sub: Submission,
                          i: nat, l: Option<Submission>)
    requires Linear(s) && Balanced(s.ledger) && WaitsIff(s, i, l)
    requires f in s.ledger.outstanding && s.ledger.outstanding[f].slot != i
    ensures WaitsIff(DeliverStep(s, f, fault, rv, env, sub), i, l)
  {
    var Future(j, p) := s.ledger.outstanding[f];
    if CanFire(s, s.slots[j], p, rv) {
      OtherKeepsQuiet(s.ledger, f, j, FireOutcome(s, s.slots[j], p, fault, rv, env).action, sub, i);
    }
  }

  lemma DeliverWaits(s: State, f: nat, fault: Fault, rv: nat, env: Env, sub: Submission, i: nat, l: Option<Submission>)
    requires Linear(s) && Balanced(s.ledger) && WaitsIff(s, i, l)
    ensures var now := SubmissionOf(s, Deliver(f, fault, rv, env, sub), i);
      WaitsIff(DeliverStep(s, f, fault, rv, env, sub), i, if now.Some? then now else l)
  {
    if f in s.ledger.outstanding {
      var Future(j, p) := s.ledger.outstanding[f];
      if j != i {
        OtherDeliverWaits(s, f, fault, rv, env, sub, i, l);
      } else if CanFire(s, s.slots[j], p, rv) {
        OwnDeliverWaits(s, f, fault, rv, env, sub, l);
      }
    }
  }

  /** Firing a future of context `j` does not matter to context `i`. */
  lemma OtherKeepsQuiet(l: Ledger, f: nat, j: nat, a: Action, sub: Submission, i: nat)
    requires Balanced(l) && f in l.outstanding && l.outstanding[f].slot == j && i != j
    ensures (forall g :: g in Fired(l, f, j, a, sub).outstanding ==> Fired(l, f, j, a, sub).outstanding[g].slot != i)
       <==> (forall g :: g in l.outstanding ==> l.outstanding[g].slot != i)
  {
    var out := Fired(l, f, j, a, sub).outstanding;
    forall g | g in out ensures out[g].slot == i ==> g in l.outstanding && l.outstanding[g].slot == i {
      FiredFutures(l, f, j, a, sub, g);
    }
    forall g | g in l.outstanding && l.outstanding[g].slot == i ensures g in out && out[g] == l.outstanding[g] {
      assert g != f && g != l.created;
    }
  }

  lemma DecideWaits(s: State, f: nat, apply: bool, report: bool, i: nat, l: Option<Submission>)
    requires Linear(s) && WaitsIff(s, i, l)
    ensures WaitsIff(DecideStep(s, f, apply, report), i, l)
  {
    var s', out := DecideStep(s, f, apply, report), s.ledger.outstanding;
    assert forall g :: g in s'.ledger.outstanding <==> g in out;
    assert forall g :: g in out ==> s'.ledger.outstanding[g].slot == out[g].slot;
  }

  /** Main result: in every run, a live context has no outstanding future if and only if its latest
      submission failed. */
  lemma {:induction false} StrandedIff(db: Db, es: seq<Event>, i: nat)
    ensures WaitsIff(Run(InitialState(db), es), i, LatestSubmission(db, es, i))
  {
    if es != [] {
      var n := |es| - 1;
      var s, l := Run(InitialState(db), es[..n]), LatestSubmission(db, es[..n], i);
      StrandedIff(db, es[..n], i);
      RunsAreLinear(db, es[..n]);
      match es[n]
      case Start(c, alloc, create, sub) => StartWaits(s, c, alloc, create, sub, i, l);
      case Deliver(f, fault, rv, env, sub) => DeliverWaits(s, f, fault, rv, env, sub, i, l);
      case Decide(f, apply, report) => DecideWaits(s, f, apply, report, i, l);
    }
  }

  lemma {:induction false} RunConcat(s: State, es: seq<Event>, later: seq<Event>)
    ensures Run(s, es + later) == Run(Run(s, es), later)
  {
    if later == [] {
      assert es + later == es;
    } else {
      var n := |later| - 1;
      assert (es + later)[..|es + later| - 1] == es + later[..n];
      RunConcat(s, es, later[..n]);
    }
  }

  /** And a failed submission, the first one of a request included, strands the context for good:
      whatever happens later, it is neither freed nor answered. */
  lemma FailedSubmissionStrands(db: Db, es: seq<Event>, i: nat, later: seq<Event>)
    requires i < |Run(InitialState(db), es).slots| && Live(Run(InitialState(db), es).slots[i])
    requires LatestSubmission(db, es, i).Some? && !LatestSubmission(db, es, i).value.Submitted?
    ensures var s := Run(InitialState(db), es + later);
      i < |s.slots| && Live(s.slots[i]) && Quiet(s, i) && s.slots[i].account.responses == 0
  {
    StrandedIff(db, es, i);
    QuietForever(Run(InitialState(db), es), later, i);
    RunConcat(InitialState(db), es, later);
  }

  predicate Succeeds(e: Event)
  {
    match e
    case Start(_, _, _, sub) => sub == Submitted
    case Deliver(_, _, _, _, sub) => sub == Submitted
    case Decide(_, _, _) => true
  }

  lemma {:induction false} LatestSucceeds(db: Db, es: seq<Event>, i: nat)
    requires forall j :: 0 <= j < |es| ==> Succeeds(es[j])
    ensures LatestSubmission(db, es, i).Some? ==> LatestSubmission(db, es, i).value.Submitted?
  {
    if es != [] { LatestSucceeds(db, es[..|es| - 1], i); }
  }

  /** When every submission succeeds, every live context has an outstanding future, so
      exactly one by `RunsAreLinear`. */
  lemma LiveContextsAwait(db: Db, es: seq<Event>, i: nat)
    requires forall j :: 0 <= j < |es| ==> Succeeds(es[j])
    requires i < |Run(InitialState(db), es).slots| && Live(Run(InitialState(db), es).slots[i])
    ensures !Quiet(Run(InitialState(db), es), i)
  {
    StrandedIff(db, es, i);
    LatestSucceeds(db, es, i);
  }

  /** It takes no more than the first read of a request: without a future for it the request is never
      answered, whatever happens later. */
  lemma UnansweredRequest(db: Db, p: PaymentParams, later: seq<Event>)
    ensures var s := Run(InitialState(db), [Start(PaymentChain(PaymentStart(p)), true, true, NoFuture)] + later);
      |s.slots| > 0 && Live(s.slots[0]) && s.slots[0].account.responses == 0
  {
    var e := Start(PaymentChain(PaymentStart(p)), true, true, NoFuture);
    assert [e][..0] == [];
    assert Run(InitialState(db), [e]) == Step(InitialState(db), e);
    assert SubmissionOf(InitialState(db), e, 0) == Some(NoFuture);
    FailedSubmissionStrands(db, [e], 0, later);
  }
}
