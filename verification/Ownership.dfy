/** Linear ownership of contexts and futures: who may still be called back, what has been
    released, and how many callbacks a request can take. */
module Ownership {
  import opened Serial
  import opened Chains
  import opened Engine

  /** The context and the transaction exist and no response has been sent. */
  predicate Live(sl: Slot) { sl.account == Account(1, 0, 1, 0, 0) }

  /** One response, and everything allocated has been released exactly once. */
  predicate Done(sl: Slot)
  {
    var a := sl.account;
    a.responses == 1 && a.frees == a.allocs <= 1 && a.destroyed == a.created <= 1
  }

  /** Every outstanding future belongs to a live context, and no two to the same one. */
  ghost predicate Linear(s: State)
  {
    var out := s.ledger.outstanding;
    && (forall i :: 0 <= i < |s.slots| ==> Live(s.slots[i]) || Done(s.slots[i]))
    && (forall f :: f in out ==> out[f].slot < |s.slots| && Live(s.slots[out[f].slot]))
    && (forall f, g :: f in out && g in out && out[f].slot == out[g].slot ==> f == g)
  }

  predicate Distinct(xs: seq<nat>)
  {
    forall i, j :: 0 <= i < j < |xs| ==> xs[i] != xs[j]
  }

  /** Every future ever created is either outstanding or has been destroyed, never both and
      never twice; the same for wrappers, which exist exactly for the futures handed over. */
  ghost predicate Balanced(l: Ledger)
  {
    && Distinct(l.destroyed) && Distinct(l.wrapped) && Distinct(l.unwrapped)
    && (forall f: nat :: f in l.outstanding || f in l.destroyed <==> f < l.created)
    && (forall f: nat :: f in l.outstanding ==> f !in l.destroyed && f !in l.unwrapped)
    && (forall f: nat :: f in l.wrapped <==> f in l.outstanding || f in l.unwrapped)
    && (forall f: nat :: f in l.unwrapped ==> f in l.destroyed)
  }

  lemma AppendDistinct(xs: seq<nat>, x: nat)
    requires Distinct(xs) && x !in xs
    ensures Distinct(xs + [x])
    ensures forall y :: y in xs + [x] <==> y in xs || y == x
  {
  }

  lemma SubmitBalanced(l: Ledger, i: nat, a: Action, sub: Submission)
    requires Balanced(l)
    ensures Balanced(Submit(l, i, a, sub))
  {
    var f := l.created;
    assert f !in l.destroyed && f !in l.wrapped && f !in l.unwrapped;
    AppendDistinct(l.destroyed, f);
    AppendDistinct(l.wrapped, f);
    AppendDistinct(l.unwrapped, f);
  }

  lemma ReleaseBalanced(l: Ledger, f: nat)
    requires Balanced(l) && f in l.outstanding
    ensures Balanced(Release(l, f))
  {
    AppendDistinct(l.destroyed, f);
    AppendDistinct(l.unwrapped, f);
  }

  /** A callback hands its context on to at most one new future, or gives it up. */
  lemma FiredLinear(s: State, f: nat, i: nat, a: Action, sub: Submission, sl: Slot)
    requires Linear(s) && Balanced(s.ledger)
    requires f in s.ledger.outstanding && s.ledger.outstanding[f].slot == i
    requires if a.Respond? then Done(sl) else Live(sl)
    ensures Linear(s.(slots := s.slots[i := sl], ledger := Fired(s.ledger, f, i, a, sub)))
  {
    assert s.ledger.created !in s.ledger.outstanding;
  }

  /** After a future has fired: its successor, and the others as they were. */
  lemma FiredFutures(l: Ledger, f: nat, i: nat, a: Action, sub: Submission, g: nat)
    requires Balanced(l) && f in l.outstanding && g in Fired(l, f, i, a, sub).outstanding
    ensures var fut := Fired(l, f, i, a, sub).outstanding[g];
      || (g == l.created && !a.Respond? && fut == Future(i, Await(a)))
      || (g in l.outstanding && g != f && fut == l.outstanding[g])
  {
  }

  lemma DeliverKeepsOwnership(s: State, f: nat, fault: Fault, rv: nat, env: Env, sub: Submission)
    requires Linear(s) && Balanced(s.ledger)
    ensures Linear(DeliverStep(s, f, fault, rv, env, sub)) && Balanced(DeliverStep(s, f, fault, rv, env, sub).ledger)
  {
    if f in s.ledger.outstanding {
      var Future(i, p) := s.ledger.outstanding[f];
      if i < |s.slots| && CanFire(s, s.slots[i], p, rv) {
        var a, sl := FireOutcome(s, s.slots[i], p, fault, rv, env).action, FireSlot(s, s.slots[i], p, fault, rv, env);
        assert Live(s.slots[i]);
        SubmitBalanced(s.ledger, i, a, sub);
        ReleaseBalanced(Submit(s.ledger, i, a, sub), f);
        FiredLinear(s, f, i, a, sub, sl);
      }
    }
  }

  /** Starting a request leaves every outstanding future and its context alone. */
  lemma StartKeepsFuture(s: State, c: Ctx, alloc: bool, create: bool, sub: Submission, g: nat)
    requires Balanced(s.ledger) && g in s.ledger.outstanding && s.ledger.outstanding[g].slot < |s.slots|
    ensures var s', i := StartStep(s, c, alloc, create, sub), s.ledger.outstanding[g].slot;
      && g in s'.ledger.outstanding && s'.ledger.outstanding[g] == s.ledger.outstanding[g]
      && i < |s'.slots| && s'.slots[i] == s.slots[i]
  {
    assert g != s.ledger.created;
  }

  lemma StartKeepsOwnership(s: State, c: Ctx, alloc: bool, create: bool, sub: Submission)
    requires Linear(s) && Balanced(s.ledger)
    ensures Linear(StartStep(s, c, alloc, create, sub)) && Balanced(StartStep(s, c, alloc, create, sub).ledger)
  {
    SubmitBalanced(s.ledger, |s.slots|, FirstGet(c), sub);
    assert s.ledger.created !in s.ledger.outstanding;
  }

  lemma DecideKeepsOwnership(s: State, f: nat, apply: bool, report: bool)
    requires Linear(s) && Balanced(s.ledger)
    ensures Linear(DecideStep(s, f, apply, report)) && Balanced(DecideStep(s, f, apply, report).ledger)
  {
    var s' := DecideStep(s, f, apply, report);
    assert forall g :: g in s'.ledger.outstanding <==> g in s.ledger.outstanding;
    assert forall g :: g in s.ledger.outstanding ==>
      s'.ledger.outstanding[g].slot == s.ledger.outstanding[g].slot;
  }

  lemma StepKeepsOwnership(s: State, e: Event)
    requires Linear(s) && Balanced(s.ledger)
    ensures Linear(Step(s, e)) && Balanced(Step(s, e).ledger)
  {
    match e
    case Start(c, alloc, create, sub) => StartKeepsOwnership(s, c, alloc, create, sub);
    case Deliver(f, fault, rv, env, sub) => DeliverKeepsOwnership(s, f, fault, rv, env, sub);
    case Decide(f, apply, report) => DecideKeepsOwnership(s, f, apply, report);
  }

  /** Main result: in every reachable state each context has at most one outstanding future,
      none once it is freed; response, transaction destroy and free happen together and once;
      futures and wrappers are released exactly once. */
  lemma {:induction false} RunsAreLinear(db: Db, es: seq<Event>)
    ensures Linear(Run(InitialState(db), es)) && Balanced(Run(InitialState(db), es).ledger)
  {
    if es != [] {
      RunsAreLinear(db, es[..|es| - 1]);
      StepKeepsOwnership(Run(InitialState(db), es[..|es| - 1]), es[|es| - 1]);
    }
  }

  /* --- Contexts nobody will call back --- */

  /** No future is outstanding for context `i`. */
  ghost predicate Quiet(s: State, i: nat)
  {
    forall f :: f in s.ledger.outstanding ==> s.ledger.outstanding[f].slot != i
  }

  lemma StepKeepsQuiet(s: State, e: Event, i: nat)
    requires i < |s.slots| && Quiet(s, i)
    ensures i < |Step(s, e).slots| && Quiet(Step(s, e), i) && Step(s, e).slots[i] == s.slots[i]
  {
  }

  /** Once no future is outstanding a context never changes again: a freed context is never
      called back, and a context stranded by a failed submission never gets a response. */
  lemma {:induction false} QuietForever(s: State, es: seq<Event>, i: nat)
    requires i < |s.slots| && Quiet(s, i)
    ensures i < |Run(s, es).slots| && Quiet(Run(s, es), i) && Run(s, es).slots[i] == s.slots[i]
  {
    if es != [] {
      QuietForever(s, es[..|es| - 1], i);
      StepKeepsQuiet(Run(s, es[..|es| - 1]), es[|es| - 1], i);
    }
  }
}
