/** The history table against the payments that wrote it. */
module Histories {
  import opened Words
  import opened Keyspace
  import opened Rows
  import opened Serial
  import opened Tables
  import opened Sums
  import opened Money

  function HistoryKeyOf(r: Req): Key
    requires r.PaymentReq?
  {
    History(r.payment.w, r.payment.cw, r.payment.cd, r.customer, U32(r.now))
  }

  /** The whole history table, or the part of one home warehouse. */
  datatype Scope = Everywhere | At(warehouse: u32)

  predicate Within(w: u32, at: Scope) { at.Everywhere? || at.warehouse == w }

  predicate PaidWithin(r: Req, at: Scope) { r.PaymentReq? && Within(r.payment.w, at) }

  function HistoryKeys(db: Db, at: Scope): set<Key> { set k | k in db && k.History? && Within(k.w, at) }

  function AmountOf(db: Db): Key -> int
  {
    k => if k in db && db[k].HistoryRow? then db[k].hAmount as int else 0
  }

  /** The sum of the stored history amounts. */
  ghost function HistoryTotal(db: Db, at: Scope): int { Sum(HistoryKeys(db, at), AmountOf(db)) }

  /** The sum of the payments. */
  function PaidAt(rs: seq<Req>, at: Scope): int
  {
    if rs == [] then 0
    else
      var n := |rs| - 1;
      PaidAt(rs[..n], at) + (if PaidWithin(rs[n], at) then rs[n].payment.amount else 0)
  }

  /** All payments, or what is credited to the row of the warehouse. */
  lemma {:induction false} PaidAtIs(rs: seq<Req>, at: Scope)
    ensures PaidAt(rs, at) == if at.Everywhere? then TotalPaid(rs) else Paid(rs, Warehouse(at.warehouse))
  {
    if rs != [] { PaidAtIs(rs[..|rs| - 1], at); }
  }

  /** The sum of the stored amounts that payments overwrote. */
  function Overwritten(db: Db, rs: seq<Req>, at: Scope): int
  {
    if rs == [] then 0
    else
      var n := |rs| - 1;
      Overwritten(db, rs[..n], at)
      + (if PaidWithin(rs[n], at) then AmountOf(Exec(db, rs[..n]))(HistoryKeyOf(rs[n])) else 0)
  }

  predicate HistoryStep(db: Db, db': Db, r: Req, k: Key)
  {
    if r.PaymentReq? && k == HistoryKeyOf(r)
    then k in db' && db'[k] == HistoryRow(r.now, r.payment.amount)
    else SameAt(db', db, k)
  }

  lemma ExecOneHistory(db: Db, r: Req, k: Key)
    requires Effect(r, db).Some? && k.History?
    ensures HistoryStep(db, ExecOne(db, r), r, k)
  {
    match r
    case OrderReq(p, now) => OrderFrame(db, p, now, k);
    case PaymentReq(p, c, now) =>
      if k == HistoryKeyOf(r) {
        PaymentHistory(db, p, c, now);
      } else {
        PaymentFrame(db, p, c, now, k);
      }
  }

  /** Storing one row moves the total by the new amount minus what was there. */
  lemma TotalStep(db: Db, db': Db, r: Req, at: Scope)
    requires forall k: Key :: k.History? ==> HistoryStep(db, db', r, k)
    ensures HistoryTotal(db', at) == HistoryTotal(db, at)
      + (if PaidWithin(r, at) then r.payment.amount - AmountOf(db)(HistoryKeyOf(r)) else 0)
  {
    if PaidWithin(r, at) {
      StoredStep(db, db', r, at);
    } else {
      var ks, ks' := HistoryKeys(db, at), HistoryKeys(db', at);
      assert ks' == ks by {
        forall k: Key | k.History? ensures k in ks' <==> k in ks { assert HistoryStep(db, db', r, k); }
      }
      forall k | k in ks ensures AmountOf(db')(k) == AmountOf(db)(k) { assert HistoryStep(db, db', r, k); }
      SumSame(ks, AmountOf(db'), AmountOf(db));
    }
  }

  lemma StoredStep(db: Db, db': Db, r: Req, at: Scope)
    requires PaidWithin(r, at) && forall k: Key :: k.History? ==> HistoryStep(db, db', r, k)
    ensures HistoryTotal(db', at) == HistoryTotal(db, at) + r.payment.amount - AmountOf(db)(HistoryKeyOf(r))
  {
    var ks, ks', key := HistoryKeys(db, at), HistoryKeys(db', at), HistoryKeyOf(r);
    assert HistoryStep(db, db', r, key);
    assert ks' == ks + {key} by {
      forall k: Key | k.History? ensures k in ks' <==> k in ks + {key} { assert HistoryStep(db, db', r, k); }
    }
    SumPick(ks', AmountOf(db'), key);
    assert ks' - {key} == ks - {key};
    forall k | k in ks - {key} ensures AmountOf(db')(k) == AmountOf(db)(k) { assert HistoryStep(db, db', r, k); }
    SumSame(ks - {key}, AmountOf(db'), AmountOf(db));
    if key in ks {
      SumPick(ks, AmountOf(db), key);
    } else {
      assert ks - {key} == ks;
    }
  }

  /** Main result: stored history amounts are all payments minus what later payments overwrote. */
  lemma {:induction false} HistoryAccounts(db: Db, rs: seq<Req>, at: Scope)
    requires AllApply(db, rs)
    ensures HistoryTotal(Exec(db, rs), at) == HistoryTotal(db, at) + PaidAt(rs, at) - Overwritten(db, rs, at)
  {
    if rs != [] {
      var n := |rs| - 1;
      HistoryAccounts(db, rs[..n], at);
      HistorySteps(Exec(db, rs[..n]), rs[n]);
      TotalStep(Exec(db, rs[..n]), Exec(db, rs), rs[n], at);
    }
  }

  lemma HistorySteps(db: Db, r: Req)
    requires Effect(r, db).Some?
    ensures forall k: Key :: k.History? ==> HistoryStep(db, ExecOne(db, r), r, k)
  {
    forall k: Key | k.History? ensures HistoryStep(db, ExecOne(db, r), r, k) { ExecOneHistory(db, r, k); }
  }

  /* --- When nothing is overwritten --- */

  predicate Wrote(rs: seq<Req>, k: Key)
  {
    exists i :: 0 <= i < |rs| && rs[i].PaymentReq? && HistoryKeyOf(rs[i]) == k
  }

  /** No two payments share home warehouse, customer and the low 32 bits of the second, and none
      shares them with a payment already in the table. */
  predicate DistinctSeconds(db: Db, rs: seq<Req>, at: Scope)
  {
    && (forall i, j :: 0 <= i < j < |rs| && PaidWithin(rs[i], at) && PaidWithin(rs[j], at) ==>
          HistoryKeyOf(rs[i]) != HistoryKeyOf(rs[j]))
    && (forall i :: 0 <= i < |rs| && PaidWithin(rs[i], at) ==> AmountOf(db)(HistoryKeyOf(rs[i])) == 0)
  }

  /** Amounts are positive, as the request generator makes them, and none stored is negative. */
  ghost predicate Positive(db: Db, rs: seq<Req>)
  {
    && (forall i :: 0 <= i < |rs| && rs[i].PaymentReq? ==> rs[i].payment.amount > 0)
    && (forall k :: AmountOf(db)(k) >= 0)
  }

  lemma WroteAppend(rs: seq<Req>, k: Key)
    requires rs != []
    ensures var n := |rs| - 1;
      Wrote(rs, k) <==> Wrote(rs[..n], k) || (rs[n].PaymentReq? && HistoryKeyOf(rs[n]) == k)
  {
    var n := |rs| - 1;
    if Wrote(rs[..n], k) {
      var i :| 0 <= i < n && rs[..n][i].PaymentReq? && HistoryKeyOf(rs[..n][i]) == k;
      assert rs[i] == rs[..n][i];
    }
    if Wrote(rs, k) {
      var i :| 0 <= i < |rs| && rs[i].PaymentReq? && HistoryKeyOf(rs[i]) == k;
      assert i < n ==> rs[..n][i] == rs[i];
    }
  }

  /** A row holds a positive amount iff it did before or some payment wrote it. */
  lemma {:induction false} HistoryRows(db: Db, rs: seq<Req>, k: Key)
    requires AllApply(db, rs) && Positive(db, rs) && k.History?
    ensures AmountOf(Exec(db, rs))(k) >= 0
    ensures AmountOf(Exec(db, rs))(k) > 0 <==> Wrote(rs, k) || AmountOf(db)(k) > 0
  {
    if rs != [] {
      var n := |rs| - 1;
      HistoryRows(db, rs[..n], k);
      ExecOneHistory(Exec(db, rs[..n]), rs[n], k);
      WroteAppend(rs, k);
    }
  }

  lemma {:induction false} OverwrittenWhen(db: Db, rs: seq<Req>, at: Scope)
    requires AllApply(db, rs) && Positive(db, rs)
    ensures Overwritten(db, rs, at) >= 0
    ensures Overwritten(db, rs, at) == 0 <==> DistinctSeconds(db, rs, at)
  {
    if rs != [] {
      var n := |rs| - 1;
      OverwrittenWhen(db, rs[..n], at);
      if PaidWithin(rs[n], at) { HistoryRows(db, rs[..n], HistoryKeyOf(rs[n])); }
      DistinctAppend(db, rs, at);
    }
  }

  lemma DistinctAppend(db: Db, rs: seq<Req>, at: Scope)
    requires rs != []
    ensures var n := |rs| - 1;
      DistinctSeconds(db, rs, at) <==>
        && DistinctSeconds(db, rs[..n], at)
        && (PaidWithin(rs[n], at) ==>
              !Wrote(rs[..n], HistoryKeyOf(rs[n])) && AmountOf(db)(HistoryKeyOf(rs[n])) == 0)
  {
    var n := |rs| - 1;
    assert forall i :: 0 <= i < n ==> rs[..n][i] == rs[i];
    if PaidWithin(rs[n], at) && Wrote(rs[..n], HistoryKeyOf(rs[n])) {
      var i :| 0 <= i < n && rs[..n][i].PaymentReq? && HistoryKeyOf(rs[..n][i]) == HistoryKeyOf(rs[n]);
      assert PaidWithin(rs[i], at) && HistoryKeyOf(rs[i]) == HistoryKeyOf(rs[n]);
    }
  }

  /** The stored amounts rise by everything paid if and only if no two payments share warehouse,
      customer and second, with each other or with the table. */
  lemma HistoryComplete(db: Db, rs: seq<Req>, at: Scope)
    requires AllApply(db, rs) && Positive(db, rs)
    ensures HistoryTotal(Exec(db, rs), at) == HistoryTotal(db, at) + PaidAt(rs, at) <==> DistinctSeconds(db, rs, at)
  {
    HistoryAccounts(db, rs, at);
    OverwrittenWhen(db, rs, at);
  }

  /** Section 3.3.2.8 of TPC-C v5.11, for the whole table: unless a warehouse total outgrows 64 bits,
      stored history amounts and warehouse totals rise alike if and only if no second is shared. */
  lemma HistoryMatchesWarehouses(db: Db, db': Db, rs: seq<Req>)
    requires AllApply(db, rs) && Positive(db, rs) && db' == Exec(db, rs)
    requires forall k :: k in TableRows(db, WarehouseTable) ==> YtdOf(db)(k) + PaidTo(rs)(k) <= MAX64
    ensures var ks := TableRows(db, WarehouseTable);
      HistoryTotal(db', Everywhere) - HistoryTotal(db, Everywhere) == Sum(ks, YtdOf(db')) - Sum(ks, YtdOf(db))
      <==> DistinctSeconds(db, rs, Everywhere)
  {
    HistoryComplete(db, rs, Everywhere);
    PaidAtIs(rs, Everywhere);
    ExecSettles(db, rs);
    TotalsRise(db, db', rs, WarehouseTable);
  }

  /** And for each warehouse by itself. */
  lemma HistoryMatchesWarehouse(db: Db, db': Db, rs: seq<Req>, w: u32)
    requires AllApply(db, rs) && Positive(db, rs) && db' == Exec(db, rs)
    requires HasWarehouse(db, Warehouse(w)) && db[Warehouse(w)].wYtd + Paid(rs, Warehouse(w)) <= MAX64
    ensures HasWarehouse(db', Warehouse(w))
    ensures HistoryTotal(db', At(w)) - HistoryTotal(db, At(w)) == db'[Warehouse(w)].wYtd - db[Warehouse(w)].wYtd
       <==> DistinctSeconds(db, rs, At(w))
  {
    HistoryComplete(db, rs, At(w));
    PaidAtIs(rs, At(w));
    MoneyRows(db, rs, Warehouse(w));
    WarehouseRises(db, db', rs, w);
  }
}
