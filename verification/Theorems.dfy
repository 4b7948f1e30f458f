/** What holds of the database after any run of the engine: the results about serial executions,
    carried over by serializability. Requests count once per applied commit, including commits
    that were applied and reported as failed. */
module Theorems {
  import opened Words
  import opened Keyspace
  import opened Serial
  import opened Engine
  import opened Serializability
  import opened Sums
  import opened Money
  import opened Inventory
  import opened Numbering
  import opened Orders
  import opened Histories
  import opened Readiness
  import opened FlatStore

  lemma CommittedBytes(f: Flat, db: Db, log: seq<Entry>)
    requires Represents(f, db) && SerialLog(db, log)
    ensures Represents(FlatAt(f, log, |log|), Exec(db, Requests(log))) && AllApply(db, Requests(log))
  {
    VersionsRepresent(f, db, log, |log|);
    SerialIsExec(db, log, |log|);
    assert Requests(log)[..|log|] == Requests(log);
  }

  /** Over any flat store and any run, the committed bytes read as the tables that the committed
      requests, executed one by one in commit order, produce. */
  lemma FlatStoreIsSerial(f: Flat, db: Db, es: seq<Event>)
    requires Represents(f, db)
    ensures var log := FlatRun(f, InitialState(db), es).log;
      Represents(FlatAt(f, log, |log|), Exec(db, Requests(log))) && AllApply(db, Requests(log))
  {
    FlatRuns(f, db, es);
    RunKeepsInv(db, es);
    CommittedBytes(f, db, Run(InitialState(db), es).log);
  }

  /** Money: no row appears or disappears, each row moves by exactly what was paid into it
      (modulo its width), and each table's total by all that was paid, unless a row overflows. */
  lemma RunMoney(db: Db, es: seq<Event>, t: Table)
    ensures var s := Run(InitialState(db), es);
      var db', rs, ks := Database(s), Requests(s.log), TableRows(db, t);
      && Settled(db, db', rs)
      && (NoRefunds(rs) ==>
            && TableRows(db', t) == ks
            && Sum(ks, YtdOf(db')) <= Sum(ks, YtdOf(db)) + TotalPaid(rs)
            && (Sum(ks, YtdOf(db')) == Sum(ks, YtdOf(db)) + TotalPaid(rs)
                <==> forall k :: k in ks ==> YtdOf(db)(k) + PaidTo(rs)(k) <= MAX64))
  {
    var s := Run(InitialState(db), es);
    RunsAreSerial(db, es);
    ExecSettles(db, Requests(s.log));
    if NoRefunds(Requests(s.log)) { TotalsRise(db, Database(s), Requests(s.log), t); }
  }

  /** Customers: the balances fall by all that was paid, unless one underflows; and what a customer
      owes plus what that customer has paid never changes. */
  lemma RunBalances(db: Db, es: seq<Event>)
    ensures var s := Run(InitialState(db), es);
      var db', rs, ks := Database(s), Requests(s.log), TableRows(db, CustomerTable);
      && (NoRefunds(rs) ==>
            (Sum(ks, BalanceOf(db')) == Sum(ks, BalanceOf(db)) - TotalPaid(rs)
             <==> forall k :: k in ks ==> BalanceOf(db)(k) - PaidTo(rs)(k) >= MIN64))
      && (forall k: Key :: k.Customer? && MoneyRow(db, k) ==>
            MoneyRow(db', k)
            && I64(db'[k].cBalance + db'[k].cYtdPayment) == I64(db[k].cBalance + db[k].cYtdPayment))
  {
    RunMoney(db, es, CustomerTable);
    var s := Run(InitialState(db), es);
    SettledBalances(db, Database(s), Requests(s.log));
  }

  lemma SettledBalances(db: Db, db': Db, rs: seq<Req>)
    requires Settled(db, db', rs)
    ensures var ks := TableRows(db, CustomerTable);
      NoRefunds(rs) ==>
        (Sum(ks, BalanceOf(db')) == Sum(ks, BalanceOf(db)) - TotalPaid(rs)
         <==> forall k :: k in ks ==> BalanceOf(db)(k) - PaidTo(rs)(k) >= MIN64)
    ensures forall k: Key :: k.Customer? && MoneyRow(db, k) ==>
      MoneyRow(db', k) && I64(db'[k].cBalance + db'[k].cYtdPayment) == I64(db[k].cBalance + db[k].cYtdPayment)
  {
    if NoRefunds(rs) { BalancesFall(db, db', rs); }
    forall k: Key | k.Customer? && MoneyRow(db, k)
      ensures MoneyRow(db', k) && I64(db'[k].cBalance + db'[k].cYtdPayment) == I64(db[k].cBalance + db[k].cYtdPayment)
    {
      assert MoneyKey(k);
      BalancePlusPaid(db, db', rs, k);
    }
  }

  /** Section 3.3.2.1 of TPC-C: a warehouse's total equals the sum over its districts. The gap
      between the two moves by what the warehouse received less what customers of its districts
      paid, so it stays when every payment is local. */
  lemma RunConsistency(db: Db, es: seq<Event>, w: u32)
    requires HasWarehouse(db, Warehouse(w))
    requires var rs := Requests(Run(InitialState(db), es).log);
      && NoRefunds(rs) && db[Warehouse(w)].wYtd + Paid(rs, Warehouse(w)) <= MAX64
      && forall k :: k in DistrictsOf(db, w) ==> YtdOf(db)(k) + PaidTo(rs)(k) <= MAX64
    ensures var s := Run(InitialState(db), es);
      var db', rs := Database(s), Requests(s.log);
      && HasWarehouse(db', Warehouse(w))
      && Imbalance(db', w) == Imbalance(db, w) + Paid(rs, Warehouse(w)) - PaidByCustomersOf(rs, w)
      && ((forall i :: 0 <= i < |rs| && rs[i].PaymentReq? ==> rs[i].payment.cw == rs[i].payment.w)
          ==> Imbalance(db', w) == Imbalance(db, w))
  {
    RunMoney(db, es, WarehouseTable);
    var s := Run(InitialState(db), es);
    var rs := Requests(s.log);
    ImbalanceMoves(db, Database(s), rs, w);
    if forall i :: 0 <= i < |rs| && rs[i].PaymentReq? ==> rs[i].payment.cw == rs[i].payment.w {
      LocalPayments(rs, w);
    }
  }

  /** The quantity depends only on how much was taken, not on the order of the orders, and stays
      between 10 and 100; the other two counters describe only the last order, with the exact
      condition under which that is what they should say. */
  ghost predicate StockAfter(db: Db, db': Db, rs: seq<Req>, k: Key)
    requires HasStock(db, k)
  {
    && HasStock(db', k)
    && (Modest(rs) && Inventory.InRange(db[k].sQuantity) ==>
          && 10 <= db'[k].sQuantity <= 100
          && db'[k].sQuantity == 10 + (db[k].sQuantity - 10 - Taken(rs, k)) % 91)
    && (LatestTaken(rs, k).Some? ==> db'[k].sOrderCnt == 1 && db'[k].sYtd == LatestTaken(rs, k).value)
    && (db'[k].sOrderCnt == db[k].sOrderCnt + Naming(rs, k)
        <==> Naming(rs, k) == 0 || db[k].sOrderCnt + Naming(rs, k) == 1)
    && (db'[k].sYtd == db[k].sYtd + Taken(rs, k) <==> Naming(rs, k) == 0 || db[k].sYtd + EarlierTaken(rs, k) == 0)
  }

  lemma SerialStock(db: Db, rs: seq<Req>, k: Key)
    requires AllApply(db, rs) && k.Stock? && HasStock(db, k)
    ensures StockAfter(db, Exec(db, rs), rs, k)
  {
    StockStays(db, rs, k);
    CountersOverwritten(db, rs, k);
    OrderCountRight(db, rs, k);
    YtdRight(db, rs, k);
    if Modest(rs) && Inventory.InRange(db[k].sQuantity) { StockQuantity(db, rs, k); }
  }

  lemma RunStock(db: Db, es: seq<Event>, k: Key)
    requires k.Stock? && HasStock(db, k)
    ensures var s := Run(InitialState(db), es);
      StockAfter(db, Database(s), Requests(s.log), k)
  {
    RunsAreSerial(db, es);
    SerialStock(db, Requests(Run(InitialState(db), es).log), k);
  }

  /** Order numbers: no run moves a district's own next order id except to zero. */
  lemma RunNumbering(db: Db, es: seq<Event>, w: u32, d: u32)
    requires HasDistrict(db, District(w, d))
    ensures var s := Run(InitialState(db), es);
      && HasDistrict(Database(s), District(w, d))
      && Database(s)[District(w, d)].dNextOid
         == if PaidInto(Requests(s.log), w, d) then 0 else db[District(w, d)].dNextOid
  {
    RunsAreSerial(db, es);
    DistrictIdFrozen(db, Requests(Run(InitialState(db), es).log), w, d);
  }

  /** The counter key holds one more than the id of the last order committed in the district. */
  lemma RunCounter(db: Db, es: seq<Event>, w: u32, d: u32)
    ensures var s := Run(InitialState(db), es);
      CounterIs(db, Database(s), Requests(s.log), w, d)
  {
    RunsAreSerial(db, es);
    CounterFollowsLastOrder(db, Requests(Run(InitialState(db), es).log), w, d);
  }

  /** The ids used in any run: the district's initial id until the first payment into the district
      is committed, and 0 from then on. */
  lemma RunIdUsed(db: Db, es: seq<Event>, j: nat)
    requires j < |Run(InitialState(db), es).log| && Run(InitialState(db), es).log[j].req.OrderReq?
    ensures var rs := Requests(Run(InitialState(db), es).log);
      var p := rs[j].order;
      && OrderReady(p, Exec(db, rs[..j])) && HasDistrict(db, District(p.w, p.d))
      && IdAt(db, rs, j) == if PaidInto(rs[..j], p.w, p.d) then 0 else db[District(p.w, p.d)].dNextOid
  {
    RunsAreSerial(db, es);
    IdsUsed(db, Requests(Run(InitialState(db), es).log), j);
  }

  /** Two orders of a district have different ids if and only if that payment comes between them and
      the initial id is not 0. */
  lemma RunIds(db: Db, es: seq<Event>, i: nat, j: nat)
    requires var rs := Requests(Run(InitialState(db), es).log);
      && i < j < |rs| && rs[i].OrderReq? && OrdersFrom(rs[j], rs[i].order.w, rs[i].order.d)
    ensures var rs := Requests(Run(InitialState(db), es).log);
      var w, d := rs[i].order.w, rs[i].order.d;
      && HasDistrict(db, District(w, d))
      && OrderReady(rs[i].order, Exec(db, rs[..i])) && OrderReady(rs[j].order, Exec(db, rs[..j]))
      && (IdAt(db, rs, i) != IdAt(db, rs, j)
          <==> db[District(w, d)].dNextOid != 0 && !PaidInto(rs[..i], w, d) && PaidInto(rs[..j], w, d))
  {
    var rs := Requests(Run(InitialState(db), es).log);
    RunsAreSerial(db, es);
    IdsReused(db, rs, i, j);
  }

  /** Orders: for every order key, the rows are those of the last request that placed it, with the
      lines of longer, earlier ones behind them. */
  lemma RunOrders(db: Db, es: seq<Event>, w: u32, d: u32, o: u32)
    requires NoOrder(db, w, d, o)
    ensures var s := Run(InitialState(db), es);
      var rs := Requests(s.log);
      OrderIs(Database(s), LastPlaced(db, rs, w, d, o), MostLines(db, rs, w, d, o), w, d, o)
  {
    RunsAreSerial(db, es);
    OrderStructure(db, Requests(Run(InitialState(db), es).log), w, d, o);
  }

  /** The lines stored under an order key are 1 to the stored count if and only if no longer order
      was placed under it. */
  lemma RunLineCount(db: Db, es: seq<Event>, w: u32, d: u32, o: u32)
    requires NoOrder(db, w, d, o)
    requires LastPlaced(db, Requests(Run(InitialState(db), es).log), w, d, o).Some?
    ensures var s := Run(InitialState(db), es);
      var db', rs := Database(s), Requests(s.log);
      var lines := |LastPlaced(db, rs, w, d, o).value.order.lines|;
      && Order(w, d, o) in db' && db'[Order(w, d, o)].OrderRow?
      && db'[Order(w, d, o)].oCarrier == -1 && db'[Order(w, d, o)].oLineCnt == lines
      && ((forall n: u32 :: OrderLine(w, d, o, n) in db' <==> 1 <= n <= db'[Order(w, d, o)].oLineCnt as int)
          <==> MostLines(db, rs, w, d, o) == lines)
  {
    RunsAreSerial(db, es);
    LineCountRight(db, Requests(Run(InitialState(db), es).log), w, d, o);
  }

  /** History: the stored amounts rise by all payments less what was overwritten within one second,
      in the whole table and for each home warehouse. */
  lemma RunHistories(db: Db, es: seq<Event>, at: Scope)
    ensures var s := Run(InitialState(db), es);
      var rs := Requests(s.log);
      && HistoryTotal(Database(s), at) == HistoryTotal(db, at) + PaidAt(rs, at) - Overwritten(db, rs, at)
      && (Positive(db, rs) ==>
            (HistoryTotal(Database(s), at) == HistoryTotal(db, at) + PaidAt(rs, at) <==> DistinctSeconds(db, rs, at)))
  {
    var rs := Requests(Run(InitialState(db), es).log);
    RunsAreSerial(db, es);
    HistoryAccounts(db, rs, at);
    if Positive(db, rs) { HistoryComplete(db, rs, at); }
  }

  /** Section 3.3.2.8 of TPC-C over every run: warehouse totals and stored history amounts rise
      alike if and only if no two payments share warehouse, customer and second. */
  lemma RunHistoryMatches(db: Db, es: seq<Event>)
    requires var rs := Requests(Run(InitialState(db), es).log);
      && Positive(db, rs)
      && forall k :: k in TableRows(db, WarehouseTable) ==> YtdOf(db)(k) + PaidTo(rs)(k) <= MAX64
    ensures var s := Run(InitialState(db), es);
      var db', rs, ks := Database(s), Requests(s.log), TableRows(db, WarehouseTable);
      HistoryTotal(db', Everywhere) - HistoryTotal(db, Everywhere) == Sum(ks, YtdOf(db')) - Sum(ks, YtdOf(db))
      <==> DistinctSeconds(db, rs, Everywhere)
  {
    var s := Run(InitialState(db), es);
    RunsAreSerial(db, es);
    HistoryMatchesWarehouses(db, Database(s), Requests(s.log));
  }

  /** The same for each warehouse by itself. */
  lemma RunHistoryMatchesAt(db: Db, es: seq<Event>, w: u32)
    requires HasWarehouse(db, Warehouse(w))
    requires var rs := Requests(Run(InitialState(db), es).log);
      Positive(db, rs) && db[Warehouse(w)].wYtd + Paid(rs, Warehouse(w)) <= MAX64
    ensures var s := Run(InitialState(db), es);
      var db', rs := Database(s), Requests(s.log);
      && HasWarehouse(db', Warehouse(w))
      && (HistoryTotal(db', At(w)) - HistoryTotal(db, At(w)) == db'[Warehouse(w)].wYtd - db[Warehouse(w)].wYtd
          <==> DistinctSeconds(db, rs, At(w)))
  {
    var s := Run(InitialState(db), es);
    RunsAreSerial(db, es);
    HistoryMatchesWarehouse(db, Database(s), Requests(s.log), w);
  }
}
