/** No committed transaction takes away, shortens or brings in a row that another one needs:
    whether a request can run is decided by the initial tables alone. */
module Readiness {
  import opened Keyspace
  import opened Serial
  import opened Money
  import opened Inventory

  lemma {:induction false} StockStays(db: Db, rs: seq<Req>, k: Key)
    requires AllApply(db, rs) && k.Stock?
    ensures HasStock(Exec(db, rs), k) <==> HasStock(db, k)
  {
    if rs != [] {
      var n := |rs| - 1;
      StockStays(db, rs[..n], k);
      ExecOneStock(Exec(db, rs[..n]), rs[n], k);
    }
  }

  /** A request can run after others exactly when it could run before them. */
  lemma ReadyStays(db: Db, rs: seq<Req>, r: Req)
    requires AllApply(db, rs)
    ensures Effect(r, Exec(db, rs)).Some? <==> Effect(r, db).Some?
  {
    match r
    case OrderReq(p, _) =>
      MoneyRows(db, rs, District(p.w, p.d));
      MoneyRows(db, rs, Customer(p.w, p.d, p.c));
      forall i | 0 <= i < |p.lines|
        ensures HasStock(Exec(db, rs), StockKeyOf(p.lines[i])) <==> HasStock(db, StockKeyOf(p.lines[i]))
      {
        StockStays(db, rs, StockKeyOf(p.lines[i]));
      }
    case PaymentReq(p, c, _) =>
      MoneyRows(db, rs, Warehouse(p.w));
      MoneyRows(db, rs, District(p.cw, p.cd));
      MoneyRows(db, rs, Customer(p.cw, p.cd, c));
  }

  /** A list of requests runs through exactly when each of them could run first. */
  lemma {:induction false} AllApplyIff(db: Db, rs: seq<Req>)
    ensures AllApply(db, rs) <==> forall i :: 0 <= i < |rs| ==> Effect(rs[i], db).Some?
  {
    if rs != [] {
      var n := |rs| - 1;
      AllApplyIff(db, rs[..n]);
      assert (forall i :: 0 <= i < |rs| ==> Effect(rs[i], db).Some?) <==>
             (forall i :: 0 <= i < n ==> Effect(rs[..n][i], db).Some?) && Effect(rs[n], db).Some? by {
        assert forall i :: 0 <= i < n ==> rs[..n][i] == rs[i];
      }
      if AllApply(db, rs[..n]) { ReadyStays(db, rs[..n], rs[n]); }
    }
  }
}
