/** The flat key space: FoundationDB holds byte strings under byte strings. This module shows
    that the tables of the other modules are a faithful reading of it: flat keys never collide,
    so reads, writes and conflicts on bytes are reads, writes and conflicts on rows. */
module FlatStore {
  import opened Words
  import opened Keyspace
  import opened Rows
  import opened Serial
  import opened Chains
  import opened Engine
  import opened Serializability

  type Flat = map<Bytes, Bytes>

  datatype FlatWrite = FlatWrite(key: Bytes, value: Bytes)

  function EncodeWrite(w: Write): FlatWrite { FlatWrite(EncodeKey(w.key), EncodeRow(w.value)) }

  function Map<A, B>(f: A -> B, xs: seq<A>): seq<B>
  {
    seq(|xs|, i requires 0 <= i < |xs| => f(xs[i]))
  }

  lemma MapSnoc<A, B>(f: A -> B, xs: seq<A>, i: nat)
    requires i < |xs|
    ensures Map(f, xs[..i + 1]) == Map(f, xs[..i]) + [f(xs[i])]
    ensures Map(f, xs)[..i] == Map(f, xs[..i])
  {
  }

  lemma MapConcat<A, B>(f: A -> B, xs: seq<A>, ys: seq<A>)
    ensures Map(f, xs + ys) == Map(f, xs) + Map(f, ys)
  {
  }

  /** The `fdb_transaction_set` calls behind a list of row writes. */
  function EncodeWrites(ws: seq<Write>): seq<FlatWrite>
  {
    Map(EncodeWrite, ws)
  }

  function ApplyFlat(f: Flat, ws: seq<FlatWrite>): Flat
  {
    if ws == [] then f
    else
      var n := |ws| - 1;
      ApplyFlat(f, ws[..n])[ws[n].key := ws[n].value]
  }

  /** The flat store and the tables agree on every well-formed key. */
  ghost predicate Represents(f: Flat, db: Db)
  {
    forall k: Key :: AgreeAt(f, db, k)
  }

  ghost predicate AgreeAt(f: Flat, db: Db, k: Key)
  {
    && (EncodeKey(k) in f <==> k in db)
    && (k in db ==> View(k, f[EncodeKey(k)]) == db[k])
  }

  ghost predicate AllFit(ws: seq<Write>)
  {
    forall i :: 0 <= i < |ws| ==> Fits(ws[i].key, ws[i].value)
  }

  lemma SetAgrees(f: Flat, db: Db, w: Write, k: Key)
    requires AgreeAt(f, db, k) && Fits(w.key, w.value)
    ensures AgreeAt(f[EncodeKey(w.key) := EncodeRow(w.value)], db[w.key := w.value], k)
  {
    if EncodeKey(k) == EncodeKey(w.key) {
      KeyInjective(k, w.key);
      RowRoundTrip(k, w.value);
    }
  }

  /** Setting bytes is setting rows. */
  lemma {:induction false} ApplyRepresents(f: Flat, db: Db, ws: seq<Write>)
    requires Represents(f, db) && AllFit(ws)
    ensures Represents(ApplyFlat(f, EncodeWrites(ws)), Apply(db, ws))
  {
    if ws != [] {
      var n := |ws| - 1;
      ApplyRepresents(f, db, ws[..n]);
      MapSnoc(EncodeWrite, ws, n);
      forall k: Key
        ensures AgreeAt(ApplyFlat(f, EncodeWrites(ws)), Apply(db, ws), k)
      {
        SetAgrees(ApplyFlat(f, EncodeWrites(ws[..n])), Apply(db, ws[..n]), ws[n], k);
      }
    }
  }

  /** Every flat store, whatever else it holds, is a reading of some tables. */
  lemma {:induction false} TablesExist(f: Flat)
    ensures exists db: Db :: Represents(f, db)
    decreases |f|
  {
    if f == map[] {
      assert Represents(f, map[]);
    } else {
      var b :| b in f;
      var f' := f - {b};
      assert f'.Keys == f.Keys - {b};
      TablesExist(f');
      var db: Db :| Represents(f', db);
      assert forall k: Key :: AgreeAt(f', db, k);
      if key: Key :| EncodeKey(key) == b {
        var db' := db[key := View(key, f[b])];
        forall k: Key ensures AgreeAt(f, db', k) {
          assert AgreeAt(f', db, k);
          if EncodeKey(k) == b { KeyInjective(k, key); }
        }
        assert Represents(f, db');
      } else {
        forall k: Key ensures AgreeAt(f, db, k) {
          assert AgreeAt(f', db, k);
        }
        assert Represents(f, db);
      }
    }
  }

  /* --- The engine's three uses of the store, on bytes --- */

  /** The committed flat store after `v` commits. */
  function FlatAt(f: Flat, log: seq<Entry>, v: nat): Flat
    requires v <= |log|
  {
    if v == 0 then f else ApplyFlat(FlatAt(f, log, v - 1), EncodeWrites(log[v - 1].writes))
  }

  /** `fdb_transaction_get`, then the handler's length test and cast. */
  function FlatLookup(f: Flat, k: Key): FutureResult
  {
    if EncodeKey(k) in f then Found(View(k, f[EncodeKey(k)])) else Absent
  }

  ghost predicate Sets(ws: seq<FlatWrite>, b: Bytes)
  {
    exists i :: 0 <= i < |ws| && ws[i].key == b
  }

  /** No flat key of the read conflict set was set after version `v`. */
  ghost predicate NoFlatConflict(log: seq<Entry>, v: nat, readSet: set<Bytes>)
  {
    forall j, b :: v <= j < |log| && b in readSet ==> !Sets(EncodeWrites(log[j].writes), b)
  }

  function EncodeKeys(ks: set<Key>): set<Bytes>
  {
    set k | k in ks :: EncodeKey(k)
  }

  lemma SetsIsMentions(ws: seq<Write>, k: Key)
    ensures Sets(EncodeWrites(ws), EncodeKey(k)) <==> Mentions(ws, k)
  {
    if Mentions(ws, k) {
      var i :| 0 <= i < |ws| && ws[i].key == k;
      assert EncodeWrites(ws)[i] == EncodeWrite(ws[i]);
    }
    if Sets(EncodeWrites(ws), EncodeKey(k)) {
      var i :| 0 <= i < |ws| && EncodeWrites(ws)[i].key == EncodeKey(k);
      assert EncodeWrites(ws)[i] == EncodeWrite(ws[i]);
      KeyInjective(ws[i].key, k);
    }
  }

  /** The store's conflict verdict on bytes is the verdict on rows. */
  lemma SameConflicts(log: seq<Entry>, v: nat, readSet: set<Key>)
    ensures NoFlatConflict(log, v, EncodeKeys(readSet)) <==> NoConflict(log, v, readSet)
  {
    if NoFlatConflict(log, v, EncodeKeys(readSet)) {
      forall j, k | v <= j < |log| && k in readSet
        ensures !Mentions(log[j].writes, k)
      {
        assert EncodeKey(k) in EncodeKeys(readSet);
        SetsIsMentions(log[j].writes, k);
      }
    }
    if NoConflict(log, v, readSet) {
      forall j, b | v <= j < |log| && b in EncodeKeys(readSet)
        ensures !Sets(EncodeWrites(log[j].writes), b)
      {
        var k :| k in readSet && EncodeKey(k) == b;
        SetsIsMentions(log[j].writes, k);
      }
    }
  }

  /** Every row a handler writes is of the kind its key's table holds. */
  lemma EffectFits(r: Req, db: Db)
    requires Effect(r, db).Some?
    ensures AllFit(Effect(r, db).value)
  {
    match r
    case OrderReq(p, now) =>
      var ws := Effect(r, db).value;
      var n := |p.lines|;
      forall i | 0 <= i < |ws|
        ensures Fits(ws[i].key, ws[i].value)
      {
        if 2 <= i < n + 2 {
          assert ws[i] == LineWrite(p, OrderId(p, db), i - 2, Amounts(p)[i - 2]);
        } else if n + 2 < i {
          assert ws[i] == StockWrite(p.lines[i - n - 3], Quantities(p, db)[i - n - 3]);
        }
      }
    case PaymentReq(_, _, _) =>
  }

  lemma {:induction false} VersionsRepresent(f: Flat, init: Db, log: seq<Entry>, v: nat)
    requires Represents(f, init) && SerialLog(init, log) && v <= |log|
    ensures Represents(FlatAt(f, log, v), DbAt(init, log, v))
    decreases v
  {
    if v > 0 {
      VersionsRepresent(f, init, log, v - 1);
      assert Replays(log[v - 1], DbAt(init, log, v - 1));
      EffectFits(log[v - 1].req, DbAt(init, log, v - 1));
      ApplyRepresents(FlatAt(f, log, v - 1), DbAt(init, log, v - 1), log[v - 1].writes);
    }
  }

  lemma SameLookup(f: Flat, db: Db, k: Key)
    requires Represents(f, db)
    ensures FlatLookup(f, k) == Lookup(db, k)
  {
    assert AgreeAt(f, db, k);
  }

  /* --- The machine on bytes --- */

  /** `Engine.ReadResult` on bytes: the snapshot is flat, the buffer holds flat writes. */
  function FlatReadResult(f: Flat, s: State, tr: Tr, v: nat, k: Key, fault: Fault): FutureResult
    requires v <= |s.log|
  {
    match fault
    case FutureFault => Failed
    case ValueFault => Unreadable
    case NoFault => FlatLookup(ApplyFlat(FlatAt(f, s.log, v), EncodeWrites(tr.buffer)), k)
  }

  ghost function FlatFire(f: Flat, s: State, sl: Slot, p: Pending, fault: Fault, rv: nat, env: Env): Outcome<Ctx>
    requires CanFire(s, sl, p, rv)
  {
    match p
    case AwaitGet(k, cb) => Fire(sl.ctx, cb, FlatReadResult(f, s, sl.tr, Version(sl.tr, rv), k, fault), env)
    case _ => FireOutcome(s, sl, p, fault, rv, env)
  }

  ghost function FlatDeliver(f: Flat, s: State, g: nat, fault: Fault, rv: nat, env: Env, sub: Submission): State
  {
    if g !in s.ledger.outstanding then s
    else
      var Future(i, p) := s.ledger.outstanding[g];
      if i >= |s.slots| || !CanFire(s, s.slots[i], p, rv) then s
      else
        var sl := s.slots[i];
        var out := FlatFire(f, s, sl, p, fault, rv, env);
        var reset := if p.AwaitOnError? && fault.NoFault? then 1 else 0;
        s.(slots := s.slots[i := Continue(sl, FireTr(sl, p, fault, rv), out, env).(resets := sl.resets + reset)],
           ledger := Fired(s.ledger, g, i, out.action, sub))
  }

  /** The cluster compares flat keys. */
  ghost function FlatDecide(s: State, g: nat, apply: bool, report: bool): State
  {
    if g !in s.ledger.outstanding || !s.ledger.outstanding[g].pending.AwaitCommit?
      || s.ledger.outstanding[g].slot >= |s.slots| then s
    else
      var i := s.ledger.outstanding[g].slot;
      var tr := s.slots[i].tr;
      var clean := tr.rv.Some? && NoFlatConflict(s.log, tr.rv.value, EncodeKeys(tr.readSet));
      DecideStep(s, g, apply && clean, report)
  }

  ghost function FlatStep(f: Flat, s: State, e: Event): State
  {
    match e
    case Start(c, alloc, create, sub) => StartStep(s, c, alloc, create, sub)
    case Deliver(g, fault, rv, env, sub) => FlatDeliver(f, s, g, fault, rv, env, sub)
    case Decide(g, apply, report) => FlatDecide(s, g, apply, report)
  }

  ghost function FlatRun(f: Flat, s: State, es: seq<Event>): State
  {
    if es == [] then s else FlatStep(f, FlatRun(f, s, es[..|es| - 1]), es[|es| - 1])
  }

  lemma FireSame(f: Flat, s: State, g: nat, fault: Fault, rv: nat, env: Env)
    requires Inv(s) && Represents(f, s.init) && g in s.ledger.outstanding
    requires var Future(i, p) := s.ledger.outstanding[g]; i < |s.slots| && CanFire(s, s.slots[i], p, rv)
    ensures var Future(i, p) := s.ledger.outstanding[g];
      FlatFire(f, s, s.slots[i], p, fault, rv, env) == FireOutcome(s, s.slots[i], p, fault, rv, env)
  {
    var Future(i, p) := s.ledger.outstanding[g];
    if p.AwaitGet? { SameReads(f, s, g, Version(s.slots[i].tr, rv), fault); }
  }

  lemma DeliverSame(f: Flat, s: State, g: nat, fault: Fault, rv: nat, env: Env, sub: Submission)
    requires Inv(s) && Represents(f, s.init)
    ensures FlatDeliver(f, s, g, fault, rv, env, sub) == DeliverStep(s, g, fault, rv, env, sub)
  {
    if g in s.ledger.outstanding {
      var Future(i, p) := s.ledger.outstanding[g];
      if i < |s.slots| && CanFire(s, s.slots[i], p, rv) { FireSame(f, s, g, fault, rv, env); }
    }
  }

  lemma DecideSame(s: State, g: nat, apply: bool, report: bool)
    ensures FlatDecide(s, g, apply, report) == DecideStep(s, g, apply, report)
  {
    if g in s.ledger.outstanding && s.ledger.outstanding[g].slot < |s.slots| {
      var tr := s.slots[s.ledger.outstanding[g].slot].tr;
      if tr.rv.Some? { SameConflicts(s.log, tr.rv.value, tr.readSet); }
    }
  }

  lemma StepSame(f: Flat, s: State, e: Event)
    requires Inv(s) && Represents(f, s.init)
    ensures FlatStep(f, s, e) == Step(s, e)
  {
    match e
    case Start(_, _, _, _) =>
    case Deliver(g, fault, rv, env, sub) => DeliverSame(f, s, g, fault, rv, env, sub);
    case Decide(g, apply, report) => DecideSame(s, g, apply, report);
  }

  /** Main result: over any flat store, the machine that reads bytes, writes bytes and compares
      flat keys makes exactly the steps of the row machine, and its committed bytes read back as
      the row machine's tables at every version. */
  lemma {:induction false} FlatRuns(f: Flat, db: Db, es: seq<Event>)
    requires Represents(f, db)
    ensures var s := Run(InitialState(db), es);
      && FlatRun(f, InitialState(db), es) == s
      && (forall v | 0 <= v <= |s.log| :: Represents(FlatAt(f, s.log, v), DbAt(db, s.log, v)))
  {
    RunKeepsInv(db, es);
    if es != [] {
      FlatRuns(f, db, es[..|es| - 1]);
      RunKeepsInv(db, es[..|es| - 1]);
      StepSame(f, Run(InitialState(db), es[..|es| - 1]), es[|es| - 1]);
    }
    var s := Run(InitialState(db), es);
    forall v | 0 <= v <= |s.log|
      ensures Represents(FlatAt(f, s.log, v), DbAt(db, s.log, v))
    {
      VersionsRepresent(f, db, s.log, v);
    }
  }

  /** A read that a chain is waiting for returns the same row. */
  lemma SameReads(f: Flat, s: State, g: nat, v: nat, fault: Fault)
    requires Inv(s) && Represents(f, s.init)
    requires g in s.ledger.outstanding && s.ledger.outstanding[g].pending.AwaitGet? && v <= |s.log|
    ensures var Future(i, p) := s.ledger.outstanding[g];
      FlatReadResult(f, s, s.slots[i].tr, v, p.key, fault) == ReadResult(s, s.slots[i].tr, v, p.key, fault)
  {
    var Future(i, p) := s.ledger.outstanding[g];
    assert SlotInv(s.init, s.log, s.slots[i], p);
    VersionsRepresent(f, s.init, s.log, v);
    ApplyRepresents(FlatAt(f, s.log, v), DbAt(s.init, s.log, v), s.slots[i].tr.buffer);
    SameLookup(ApplyFlat(FlatAt(f, s.log, v), EncodeWrites(s.slots[i].tr.buffer)),
               Apply(DbAt(s.init, s.log, v), s.slots[i].tr.buffer), p.key);
  }
}
