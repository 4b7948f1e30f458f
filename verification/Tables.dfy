/** What one applied request does to each table, row by row. */
module Tables {
  import opened Words
  import opened Keyspace
  import opened Rows
  import opened Serial

  /* --- Payment --- */

  lemma PaymentStep(db: Db, p: PaymentParams, c: u32, now: i64)
    requires PaymentReady(p, c, db)
    ensures var ws := PaymentEffect(p, c, now, db).value;
      && |ws| == 4
      && ExecOne(db, PaymentReq(p, c, now)) == ApplyFour(db, ws)
  {
    var ws := PaymentEffect(p, c, now, db).value;
    FourWrites(db, ws);
  }

  function ApplyFour(db: Db, ws: seq<Write>): Db
    requires |ws| == 4
  {
    db[ws[0].key := ws[0].value][ws[1].key := ws[1].value][ws[2].key := ws[2].value][ws[3].key := ws[3].value]
  }

  lemma FourWrites(db: Db, ws: seq<Write>)
    requires |ws| == 4
    ensures Apply(db, ws) == ApplyFour(db, ws)
  {
    assert ws[..3][..2] == ws[..2] && ws[..2][..1] == ws[..1] && ws[..1][..0] == [];
    assert Apply(db, ws[..1]) == db[ws[0].key := ws[0].value];
    assert Apply(db, ws[..2]) == Apply(db, ws[..1])[ws[1].key := ws[1].value];
    assert Apply(db, ws[..3]) == Apply(db, ws[..2])[ws[2].key := ws[2].value];
  }

  /** A payment rewrites its warehouse row. */
  lemma PaymentWarehouse(db: Db, p: PaymentParams, c: u32, now: i64)
    requires PaymentReady(p, c, db)
    ensures var db', k := ExecOne(db, PaymentReq(p, c, now)), Warehouse(p.w);
      k in db' && db'[k] == WarehouseRow(I64(db[k].wYtd + p.amount))
  {
    PaymentStep(db, p, c, now);
  }

  /** It rewrites the district of the customer, not the home district. */
  lemma PaymentDistrict(db: Db, p: PaymentParams, c: u32, now: i64)
    requires PaymentReady(p, c, db)
    ensures var db', k := ExecOne(db, PaymentReq(p, c, now)), District(p.cw, p.cd);
      k in db' && db'[k] == DistrictRow(0, I64(db[k].dYtd + p.amount), 0)
  {
    PaymentStep(db, p, c, now);
  }

  lemma PaymentCustomer(db: Db, p: PaymentParams, c: u32, now: i64)
    requires PaymentReady(p, c, db)
    ensures var db', k := ExecOne(db, PaymentReq(p, c, now)), Customer(p.cw, p.cd, c);
      k in db' && db'[k] == CustomerRow(0, I64(db[k].cBalance - p.amount), I64(db[k].cYtdPayment + p.amount),
                                        I16(db[k].cPaymentCnt + 1))
  {
    PaymentStep(db, p, c, now);
  }

  lemma PaymentHistory(db: Db, p: PaymentParams, c: u32, now: i64)
    requires PaymentReady(p, c, db)
    ensures var db', k := ExecOne(db, PaymentReq(p, c, now)), History(p.w, p.cw, p.cd, c, U32(now));
      k in db' && db'[k] == HistoryRow(now, p.amount)
  {
    PaymentStep(db, p, c, now);
  }

  /** A payment changes nothing but those four rows. */
  lemma PaymentFrame(db: Db, p: PaymentParams, c: u32, now: i64, k: Key)
    requires PaymentReady(p, c, db)
    requires k != Warehouse(p.w) && k != District(p.cw, p.cd) && k != Customer(p.cw, p.cd, c)
    requires k != History(p.w, p.cw, p.cd, c, U32(now))
    ensures SameAt(ExecOne(db, PaymentReq(p, c, now)), db, k)
  {
    PaymentStep(db, p, c, now);
  }

  /* --- NewOrder --- */

  /** Line `i` is the last one naming its stock row. */
  predicate IsLastLine(p: OrderParams, i: nat)
  {
    i < |p.lines| && forall j :: i < j < |p.lines| ==> StockKeyOf(p.lines[j]) != StockKeyOf(p.lines[i])
  }

  predicate Names(p: OrderParams, k: Key)
  {
    exists i :: 0 <= i < |p.lines| && StockKeyOf(p.lines[i]) == k
  }

  /** The keys a NewOrder with id `oid` writes. */
  predicate Touches(p: OrderParams, oid: i32, k: Key)
  {
    || k == Order(p.w, p.d, U32(oid))
    || k == NewOrder(p.w, p.d, U32(oid))
    || (k.OrderLine? && k == OrderLine(p.w, p.d, U32(oid), k.number) && 1 <= k.number <= |p.lines|)
    || k == NextOid(p.w, p.d)
    || Names(p, k)
  }

  /** The key of the `j`-th write of a NewOrder. */
  function KeyAt(p: OrderParams, oid: i32, j: nat): Key
    requires j < 3 + 2 * |p.lines|
  {
    var n := |p.lines|;
    if j == 0 then Order(p.w, p.d, U32(oid))
    else if j == 1 then NewOrder(p.w, p.d, U32(oid))
    else if j < 2 + n then OrderLine(p.w, p.d, U32(oid), j - 1)
    else if j == 2 + n then NextOid(p.w, p.d)
    else StockKeyOf(p.lines[j - 3 - n])
  }

  function WritesOf(p: OrderParams, now: i64, db: Db): seq<Write>
    requires OrderReady(p, db)
  {
    OrderWrites(p, now, OrderId(p, db), Quantities(p, db), Amounts(p))
  }

  lemma OrderWriteKeys(p: OrderParams, now: i64, oid: i32, qs: seq<i32>, amounts: seq<i32>)
    requires |qs| == |amounts| == |p.lines|
    ensures var ws := OrderWrites(p, now, oid, qs, amounts);
      && |ws| == 3 + 2 * |p.lines|
      && ws[2 + |p.lines|] == CounterWrite(p, oid)
      && forall j :: 0 <= j < |ws| ==> ws[j].key == KeyAt(p, oid, j)
  {
  }

  lemma WriteKeys(p: OrderParams, now: i64, db: Db)
    requires OrderReady(p, db)
    ensures |WritesOf(p, now, db)| == 3 + 2 * |p.lines|
    ensures forall j :: 0 <= j < |WritesOf(p, now, db)| ==>
      WritesOf(p, now, db)[j].key == KeyAt(p, OrderId(p, db), j)
  {
    OrderWriteKeys(p, now, OrderId(p, db), Quantities(p, db), Amounts(p));
  }

  lemma OrderExec(db: Db, p: OrderParams, now: i64)
    requires OrderReady(p, db)
    ensures ExecOne(db, OrderReq(p, now)) == Apply(db, WritesOf(p, now, db))
  {
  }

  /** A NewOrder changes nothing but the rows it touches. */
  lemma OrderFrame(db: Db, p: OrderParams, now: i64, k: Key)
    requires OrderReady(p, db) && !Touches(p, OrderId(p, db), k)
    ensures SameAt(ExecOne(db, OrderReq(p, now)), db, k)
  {
    OrderExec(db, p, now);
    WriteKeys(p, now, db);
    ApplyFrame(db, WritesOf(p, now, db), k);
  }

  /** The `j`-th write survives when no later write has the same key. */
  lemma OrderWrote(db: Db, p: OrderParams, now: i64, j: nat)
    requires OrderReady(p, db) && j < 3 + 2 * |p.lines|
    requires forall i :: j < i < 3 + 2 * |p.lines| ==> KeyAt(p, OrderId(p, db), i) != KeyAt(p, OrderId(p, db), j)
    ensures |WritesOf(p, now, db)| == 3 + 2 * |p.lines|
    ensures var db' := ExecOne(db, OrderReq(p, now));
      var k := KeyAt(p, OrderId(p, db), j);
      k in db' && db'[k] == WritesOf(p, now, db)[j].value
  {
    OrderExec(db, p, now);
    WriteKeys(p, now, db);
    ApplyLast(db, WritesOf(p, now, db), j);
  }

  /** The order row, its `new_order` row and the counter. */
  lemma OrderHeads(db: Db, p: OrderParams, now: i64)
    requires OrderReady(p, db)
    ensures var db', oid := ExecOne(db, OrderReq(p, now)), OrderId(p, db);
      && Order(p.w, p.d, U32(oid)) in db'
      && db'[Order(p.w, p.d, U32(oid))] == OrderRow(p.c, -1, |p.lines|, if p.allLocal then 1 else 0, now)
      && NewOrder(p.w, p.d, U32(oid)) in db' && db'[NewOrder(p.w, p.d, U32(oid))] == Blob([0])
      && NextOid(p.w, p.d) in db' && db'[NextOid(p.w, p.d)] == CounterRow(I32(oid + 1))
  {
    OrderWrote(db, p, now, 0);
    OrderWrote(db, p, now, 1);
    OrderWrote(db, p, now, 2 + |p.lines|);
  }

  /** Every line of the order, numbered from 1. */
  lemma OrderLines(db: Db, p: OrderParams, now: i64, i: nat)
    requires OrderReady(p, db) && i < |p.lines|
    ensures var db', oid := ExecOne(db, OrderReq(p, now)), OrderId(p, db);
      && OrderLine(p.w, p.d, U32(oid), i + 1) in db'
      && db'[OrderLine(p.w, p.d, U32(oid), i + 1)]
         == OrderLineRow(p.lines[i].item, p.lines[i].supply, p.lines[i].quantity, 100 * p.lines[i].quantity as int)
  {
    OrderWrote(db, p, now, 2 + i);
  }

  /** A stock row gets the quantity computed for the last line that names it, from the
      quantity before the order: earlier lines naming the same row leave no trace. */
  lemma OrderStock(db: Db, p: OrderParams, now: i64, i: nat)
    requires OrderReady(p, db) && IsLastLine(p, i)
    ensures var db' := ExecOne(db, OrderReq(p, now));
      && StockKeyOf(p.lines[i]) in db'
      && db'[StockKeyOf(p.lines[i])]
         == StockRow(NewQuantity(db[StockKeyOf(p.lines[i])].sQuantity, p.lines[i].quantity), p.lines[i].quantity, 1)
  {
    OrderWrote(db, p, now, 3 + |p.lines| + i);
  }
}
