/** `fdb_database.c` on the heap: futures handed over with a callback wrapper, and their release. */
module Futures {
  import opened Chains
  import opened Engine

  class Client {
    /** Futures obtained from the library so far; each is known by its number. */
    var created: nat
    var outstanding: map<nat, Future>
    var destroyed: seq<nat>
    /** Wrappers allocated and freed, by the future they belong to. */
    var wrapped: seq<nat>
    var unwrapped: seq<nat>

    ghost function Abs(): Ledger
      reads this
    {
      Ledger(created, outstanding, destroyed, wrapped, unwrapped)
    }

    constructor ()
      ensures Abs() == Ledger(0, map[], [], [], [])
    {
      created, outstanding, destroyed, wrapped, unwrapped := 0, map[], [], [], [];
    }

    /** `fdb_async_get`, `fdb_async_commit`, `fdb_handle_error` up to `submit_future`: whatever
        fails, nothing that was obtained is left behind. */
    method Async(i: nat, a: Action, sub: Submission) returns (ok: bool)
      requires !a.Respond?
      modifies this
      ensures Abs() == Submit(old(Abs()), i, a, sub)
      ensures ok <==> sub.Submitted?
    {
      if sub.NoFuture? { return false; }
      var f := created;
      created := created + 1;
      ok := SubmitFuture(f, Future(i, Await(a)), sub.MallocFails?, sub.SetCallbackFails?);
    }

    /** `submit_future` */
    method SubmitFuture(f: nat, fut: Future, noMemory: bool, refused: bool) returns (ok: bool)
      modifies `outstanding, `destroyed, `wrapped, `unwrapped
      ensures ok <==> !noMemory && !refused
      ensures outstanding == if ok then old(outstanding)[f := fut] else old(outstanding)
      ensures destroyed == if ok then old(destroyed) else old(destroyed) + [f]
      ensures wrapped == if noMemory then old(wrapped) else old(wrapped) + [f]
      ensures unwrapped == if !noMemory && refused then old(unwrapped) + [f] else old(unwrapped)
    {
      if noMemory {
        destroyed := destroyed + [f];
        return false;
      }
      wrapped := wrapped + [f];
      if refused {
        destroyed := destroyed + [f];
        unwrapped := unwrapped + [f];
        return false;
      }
      outstanding := outstanding[f := fut];
      ok := true;
    }

    /** `future_callback`: the user callback, which may submit the successor, then the release. */
    method FutureCallback(f: nat, i: nat, a: Action, sub: Submission)
      modifies this
      ensures Abs() == Fired(old(Abs()), f, i, a, sub)
    {
      if !a.Respond? { var _ := Async(i, a, sub); }
      outstanding := outstanding - {f};
      destroyed := destroyed + [f];
      unwrapped := unwrapped + [f];
    }
  }
}
