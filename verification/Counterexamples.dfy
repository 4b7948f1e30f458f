/** Small inputs on which properties that the code is meant to have fail. Each has its exact
    condition elsewhere, for all inputs. */
module Counterexamples {
  import opened Words
  import opened Keyspace
  import opened Rows
  import opened Serial
  import opened Sums
  import opened Money
  import opened Inventory
  import opened Numbering
  import opened Orders
  import opened Histories
  import opened Readiness

  /* --- Two orders of one district --- */

  const SMALL: Db := map[
    District(1, 1) := DistrictRow(0, 0, 3001),
    Customer(1, 1, 1) := CustomerRow(0, 0, 0, 0),
    Stock(1, 7) := StockRow(50, 0, 0)]

  function Repeated(n: nat): Req
    requires n <= MAX_ORDER_LINES
  {
    OrderReq(OrderParams(1, 1, 1, seq(n, _ => Line(1, 7, 5)), true), 0)
  }

  const BOTH: seq<Req> := [Repeated(15), Repeated(6)]

  /** An order of fifteen lines, then one of six: both are order 3001. */
  lemma IdsCollide()
    ensures AllApply(SMALL, BOTH)
    ensures OrderReady(BOTH[0].order, Exec(SMALL, BOTH[..0])) && IdAt(SMALL, BOTH, 0) == 3001
    ensures OrderReady(BOTH[1].order, Exec(SMALL, BOTH[..1])) && IdAt(SMALL, BOTH, 1) == 3001
  {
    AllApplyIff(SMALL, BOTH);
    IdsUsed(SMALL, BOTH, 0);
    IdsUsed(SMALL, BOTH, 1);
  }

  /** Then the order row counts six lines, and the seventh line of the first order is still there. */
  lemma OrdersCollide()
    ensures var db := Exec(SMALL, BOTH);
      && Order(1, 1, 3001) in db && db[Order(1, 1, 3001)].OrderRow? && db[Order(1, 1, 3001)].oLineCnt == 6
      && OrderLine(1, 1, 3001, 7) in db
  {
    IdsCollide();
    assert BOTH[..1][..0] == [] && BOTH[..1][0] == BOTH[0];
    OrderStructure(SMALL, BOTH, 1, 1, 3001);
    assert Places(Exec(SMALL, BOTH[..1]), BOTH[1], 1, 1, 3001);
    assert MostLines(SMALL, BOTH[..1], 1, 1, 3001) == 15 by {
      assert Places(Exec(SMALL, BOTH[..0]), BOTH[0], 1, 1, 3001);
    }
  }

  /** Both orders name stock row 7 and take 5 of it; the row then counts one order and 5 taken. */
  lemma StockCountersWrong()
    ensures AllApply(SMALL, BOTH) && HasStock(SMALL, Stock(1, 7)) && HasStock(Exec(SMALL, BOTH), Stock(1, 7))
    ensures Naming(BOTH, Stock(1, 7)) == 2 && Taken(BOTH, Stock(1, 7)) == 10
    ensures Exec(SMALL, BOTH)[Stock(1, 7)].sOrderCnt != SMALL[Stock(1, 7)].sOrderCnt + Naming(BOTH, Stock(1, 7))
    ensures Exec(SMALL, BOTH)[Stock(1, 7)].sYtd != SMALL[Stock(1, 7)].sYtd + Taken(BOTH, Stock(1, 7))
  {
    var k := Stock(1, 7);
    IdsCollide();
    assert BOTH[..1] == [Repeated(15)] && BOTH[..1][..0] == [];
    assert TakenBy(BOTH[0], k) == Some(5) && TakenBy(BOTH[1], k) == Some(5);
    assert Naming(BOTH[..1], k) == 1 && Taken(BOTH[..1], k) == 5;
    OrderCountRight(SMALL, BOTH, k);
    CountersOverwritten(SMALL, BOTH, k);
  }

  /* --- Payments --- */

  /** Warehouse 1, and a customer of warehouse 2. */
  const TWO_WAREHOUSES: Db := map[
    Warehouse(1) := WarehouseRow(0),
    District(2, 1) := DistrictRow(0, 0, 0),
    Customer(2, 1, 1) := CustomerRow(0, 0, 0, 0)]

  const REMOTE: Req := PaymentReq(PaymentParams(1, 2, 1, 1, false, 100), 1, 0)

  /** One remote payment: the warehouse is then ahead of its districts. */
  lemma RemotePaymentImbalance()
    ensures AllApply(TWO_WAREHOUSES, [REMOTE]) && HasWarehouse(Exec(TWO_WAREHOUSES, [REMOTE]), Warehouse(1))
    ensures Imbalance(TWO_WAREHOUSES, 1) == 0 && Imbalance(Exec(TWO_WAREHOUSES, [REMOTE]), 1) == 100
  {
    var db, rs := TWO_WAREHOUSES, [REMOTE];
    AllApplyIff(db, rs);
    ExecSettles(db, rs);
    assert DistrictsOf(db, 1) == {};
    assert rs[..0] == [];
    ImbalanceMoves(db, Exec(db, rs), rs, 1);
  }

  /** The same payment twice within one second: less is on record than was paid. */
  lemma SameSecondLosesHistory()
    ensures var db, rs := TWO_WAREHOUSES, [REMOTE, REMOTE];
      && AllApply(db, rs)
      && HistoryTotal(Exec(db, rs), Everywhere) != HistoryTotal(db, Everywhere) + PaidAt(rs, Everywhere)
  {
    var db, rs := TWO_WAREHOUSES, [REMOTE, REMOTE];
    AllApplyIff(db, rs);
    assert PaidWithin(rs[0], Everywhere) && PaidWithin(rs[1], Everywhere);
    assert HistoryKeyOf(rs[0]) == HistoryKeyOf(rs[1]);
    assert !DistinctSeconds(db, rs, Everywhere);
    HistoryComplete(db, rs, Everywhere);
  }

  /** A warehouse at the largest 64-bit total: the next payment makes the total fall. */
  const FULL: Db := map[
    Warehouse(1) := WarehouseRow(0x7FFF_FFFF_FFFF_FFFF),
    District(2, 1) := DistrictRow(0, 0, 0),
    Customer(2, 1, 1) := CustomerRow(0, 0, 0, 0)]

  lemma OverflowLosesMoney()
    ensures AllApply(FULL, [REMOTE])
    ensures var ks := TableRows(FULL, WarehouseTable);
      Sum(ks, YtdOf(Exec(FULL, [REMOTE]))) < Sum(ks, YtdOf(FULL)) + TotalPaid([REMOTE])
  {
    var db, rs, k := FULL, [REMOTE], Warehouse(1);
    AllApplyIff(db, rs);
    ExecSettles(db, rs);
    assert Paid(rs, k) == 100 by { assert rs[..0] == [] && Credit(REMOTE, k) == 100; }
    assert YtdOf(db)(k) == MAX64 && PaidTo(rs)(k) == 100;
    assert k in TableRows(db, WarehouseTable) && YtdOf(db)(k) + PaidTo(rs)(k) > MAX64;
    TotalsRise(db, Exec(db, rs), rs, WarehouseTable);
  }
}
