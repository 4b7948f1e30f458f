/** The serial order respects real time: what was finished before another request arrived comes
    first in the log. */
module RealTime {
  import opened Serial
  import opened Engine
  import opened Ownership
  import opened Attribution
  import opened Stranding

  /** A step only appends to the log, and only for a context that has an outstanding future. */
  lemma StepAppends(s: State, e: Event, i: nat)
    requires i < |s.slots| && Quiet(s, i)
    ensures s.log <= Step(s, e).log
    ensures forall j :: |s.log| <= j < |Step(s, e).log| ==> Step(s, e).log[j].slot != i
  {
  }

  lemma {:induction false} QuietAddsNothing(s: State, later: seq<Event>, i: nat)
    requires i < |s.slots| && Quiet(s, i)
    ensures s.log <= Run(s, later).log
    ensures forall j :: |s.log| <= j < |Run(s, later).log| ==> Run(s, later).log[j].slot != i
  {
    if later != [] {
      var before := later[..|later| - 1];
      QuietAddsNothing(s, before, i);
      QuietForever(s, before, i);
      StepAppends(Run(s, before), later[|later| - 1], i);
    }
  }

  /** A finished context has no outstanding future. */
  lemma DoneIsQuiet(s: State, i: nat)
    requires Linear(s) && i < |s.slots| && Done(s.slots[i])
    ensures Quiet(s, i)
  {
  }

  /** Main result: if request `i` is finished after `es` and request `k` arrives only then, every
      commit of `i` precedes every commit of `k`, in every continuation. */
  lemma FinishedComesFirst(db: Db, es: seq<Event>, later: seq<Event>, i: nat, k: nat, a: nat, b: nat)
    requires var s := Run(InitialState(db), es);
      i < |s.slots| && Done(s.slots[i]) && |s.slots| <= k
    requires var log := Run(InitialState(db), es + later).log;
      a < |log| && b < |log| && log[a].slot == i && log[b].slot == k
    ensures a < b
  {
    var s := Run(InitialState(db), es);
    RunsAreLinear(db, es);
    DoneIsQuiet(s, i);
    QuietAddsNothing(s, later, i);
    RunConcat(InitialState(db), es, later);
    RunsAreAttributed(db, es);
  }
}
