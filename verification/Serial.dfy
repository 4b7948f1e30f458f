/** What one NewOrder or Payment transaction does to the tables, as a pure function of
    its parameters, its clock and the rows it reads; and serial execution of requests. */
module Serial {
  import opened Words
  import opened Keyspace
  import opened Rows

  /** The tables: every row under its key. */
  type Db = map<Key, Row>

  datatype Write = Write(key: Key, value: Row)

  const MAX_ORDER_LINES := 15

  datatype Line = Line(supply: byte, item: u32, quantity: byte)

  type Lines = ls: seq<Line> | |ls| <= MAX_ORDER_LINES

  datatype OrderParams = OrderParams(w: u32, d: u32, c: u32, lines: Lines, allLocal: bool)

  datatype PaymentParams = PaymentParams(w: u32, cw: u32, cd: u32, c: u32, byName: bool, amount: i32)

  /** A transaction with everything it takes from outside the store: its parameters, the
      clock and, for a payment, the customer id in use. */
  datatype Req =
    | OrderReq(order: OrderParams, now: i64)
    | PaymentReq(payment: PaymentParams, customer: u32, now: i64)

  /** A row that is present and long enough for its struct. */
  predicate HasWarehouse(db: Db, k: Key) { k in db && db[k].WarehouseRow? }

  predicate HasDistrict(db: Db, k: Key) { k in db && db[k].DistrictRow? }

  predicate HasCustomer(db: Db, k: Key) { k in db && db[k].CustomerRow? }

  predicate HasStock(db: Db, k: Key) { k in db && db[k].StockRow? }

  /* --- NewOrder --- */

  function StockKeyOf(l: Line): Key { Stock(l.supply, l.item) }

  /** The quantity left after taking `n`, topped up by 91 when it falls below 10. */
  function NewQuantity(q: i32, n: byte): i32
  {
    var left := I32(q - n);
    if left < 10 then left + 91 else left
  }

  function LineAmount(l: Line): i32 { l.quantity as int * 100 }

  function LineWrite(p: OrderParams, oid: i32, i: nat, amount: i32): Write
    requires i < |p.lines|
  {
    var l := p.lines[i];
    Write(OrderLine(p.w, p.d, U32(oid), i + 1), OrderLineRow(l.item, l.supply, l.quantity, amount))
  }

  function StockWrite(l: Line, quantity: i32): Write
  {
    Write(StockKeyOf(l), StockRow(quantity, l.quantity, 1))
  }

  function LineWrites(p: OrderParams, oid: i32, amounts: seq<i32>): seq<Write>
    requires |p.lines| <= |amounts|
  {
    seq(|p.lines|, i requires 0 <= i < |p.lines| => LineWrite(p, oid, i, amounts[i]))
  }

  function StockWrites(p: OrderParams, quantities: seq<i32>): seq<Write>
    requires |p.lines| <= |quantities|
  {
    seq(|p.lines|, i requires 0 <= i < |p.lines| => StockWrite(p.lines[i], quantities[i]))
  }

  function OrderValue(p: OrderParams, now: i64): Row
  {
    OrderRow(p.c, -1, |p.lines|, if p.allLocal then 1 else 0, now)
  }

  function HeadWrites(p: OrderParams, now: i64, oid: i32): seq<Write>
  {
    [Write(Order(p.w, p.d, U32(oid)), OrderValue(p, now)),
     Write(NewOrder(p.w, p.d, U32(oid)), Blob([0]))]
  }

  function CounterWrite(p: OrderParams, oid: i32): Write
  {
    Write(NextOid(p.w, p.d), CounterRow(I32(oid + 1)))
  }

  /** All writes of a NewOrder attempt, in program order. */
  function OrderWrites(p: OrderParams, now: i64, oid: i32, quantities: seq<i32>, amounts: seq<i32>): seq<Write>
    requires |p.lines| <= |quantities| && |p.lines| <= |amounts|
  {
    HeadWrites(p, now, oid) + LineWrites(p, oid, amounts) + [CounterWrite(p, oid)] + StockWrites(p, quantities)
  }

  predicate OrderReady(p: OrderParams, db: Db)
  {
    && HasDistrict(db, District(p.w, p.d))
    && HasCustomer(db, Customer(p.w, p.d, p.c))
    && forall i :: 0 <= i < |p.lines| ==> HasStock(db, StockKeyOf(p.lines[i]))
  }

  function LineQuantity(l: Line, db: Db): i32
    requires HasStock(db, StockKeyOf(l))
  {
    NewQuantity(db[StockKeyOf(l)].sQuantity, l.quantity)
  }

  function OrderId(p: OrderParams, db: Db): i32
    requires OrderReady(p, db)
  {
    db[District(p.w, p.d)].dNextOid
  }

  function Quantities(p: OrderParams, db: Db): (qs: seq<i32>)
    requires OrderReady(p, db)
  {
    seq(|p.lines|, i requires 0 <= i < |p.lines| => LineQuantity(p.lines[i], db))
  }

  function Amounts(p: OrderParams): seq<i32>
  {
    seq(|p.lines|, i requires 0 <= i < |p.lines| => LineAmount(p.lines[i]))
  }

  function OrderEffect(p: OrderParams, now: i64, db: Db): Option<seq<Write>>
  {
    if OrderReady(p, db)
    then Some(OrderWrites(p, now, OrderId(p, db), Quantities(p, db), Amounts(p)))
    else None
  }

  function OrderReads(p: OrderParams): set<Key>
  {
    {District(p.w, p.d), Customer(p.w, p.d, p.c)} + LineReads(p, |p.lines|)
  }

  function LineReads(p: OrderParams, n: nat): set<Key>
    requires n <= |p.lines|
  {
    set i | 0 <= i < n :: StockKeyOf(p.lines[i])
  }

  /* --- Payment --- */

  /** All writes of a Payment attempt. The rows are built from zeroed structs: the district
      loses its tax and its next order id, the customer its discount. */
  function PaymentWrites(p: PaymentParams, c: u32, now: i64,
                         wYtd: i64, dYtd: i64, balance: i64, ytdPayment: i64, cnt: i16): seq<Write>
  {
    [Write(Warehouse(p.w), WarehouseRow(I64(wYtd + p.amount))),
     Write(District(p.cw, p.cd), DistrictRow(0, I64(dYtd + p.amount), 0)),
     Write(Customer(p.cw, p.cd, c),
           CustomerRow(0, I64(balance - p.amount), I64(ytdPayment + p.amount), I16(cnt + 1))),
     Write(History(p.w, p.cw, p.cd, c, U32(now)), HistoryRow(now, p.amount))]
  }

  predicate PaymentReady(p: PaymentParams, c: u32, db: Db)
  {
    && HasWarehouse(db, Warehouse(p.w))
    && HasDistrict(db, District(p.cw, p.cd))
    && HasCustomer(db, Customer(p.cw, p.cd, c))
  }

  function PaymentEffect(p: PaymentParams, c: u32, now: i64, db: Db): Option<seq<Write>>
  {
    if PaymentReady(p, c, db) then
      var cv := db[Customer(p.cw, p.cd, c)];
      Some(PaymentWrites(p, c, now, db[Warehouse(p.w)].wYtd, db[District(p.cw, p.cd)].dYtd,
                         cv.cBalance, cv.cYtdPayment, cv.cPaymentCnt))
    else None
  }

  function PaymentReads(p: PaymentParams, c: u32): set<Key>
  {
    {Warehouse(p.w), District(p.cw, p.cd), Customer(p.cw, p.cd, c)}
  }

  /* --- Serial execution --- */

  /** The writes of a request against `db`, or `None` when a row it needs is missing or short. */
  function Effect(r: Req, db: Db): Option<seq<Write>>
  {
    match r
    case OrderReq(p, now) => OrderEffect(p, now, db)
    case PaymentReq(p, c, now) => PaymentEffect(p, c, now, db)
  }

  function Reads(r: Req): set<Key>
  {
    match r
    case OrderReq(p, _) => OrderReads(p)
    case PaymentReq(p, c, _) => PaymentReads(p, c)
  }

  function Apply(db: Db, ws: seq<Write>): Db
  {
    if ws == [] then db
    else
      var n := |ws| - 1;
      Apply(db, ws[..n])[ws[n].key := ws[n].value]
  }

  function ExecOne(db: Db, r: Req): Db
  {
    match Effect(r, db)
    case Some(ws) => Apply(db, ws)
    case None => db
  }

  function Exec(db: Db, rs: seq<Req>): Db
  {
    if rs == [] then db else ExecOne(Exec(db, rs[..|rs| - 1]), rs[|rs| - 1])
  }

  /** Every request found the rows it needs when its turn came. */
  predicate AllApply(db: Db, rs: seq<Req>)
  {
    rs == [] ||
    (AllApply(db, rs[..|rs| - 1]) && Effect(rs[|rs| - 1], Exec(db, rs[..|rs| - 1])).Some?)
  }

  predicate SameAt(a: Db, b: Db, k: Key)
  {
    (k in a <==> k in b) && (k in a ==> a[k] == b[k])
  }

  /** A transaction's writes depend on the store only through the rows it reads. */
  lemma EffectDependsOnReads(r: Req, a: Db, b: Db)
    requires forall k :: k in Reads(r) ==> SameAt(a, b, k)
    ensures Effect(r, a) == Effect(r, b)
  {
    match r
    case OrderReq(p, now) =>
      assert SameAt(a, b, District(p.w, p.d)) && SameAt(a, b, Customer(p.w, p.d, p.c));
      forall i | 0 <= i < |p.lines|
        ensures SameAt(a, b, StockKeyOf(p.lines[i]))
      {
        assert StockKeyOf(p.lines[i]) in LineReads(p, |p.lines|);
      }
      if OrderReady(p, a) {
        assert Quantities(p, a) == Quantities(p, b);
      }
    case PaymentReq(p, c, _) =>
      assert SameAt(a, b, Warehouse(p.w)) && SameAt(a, b, District(p.cw, p.cd))
          && SameAt(a, b, Customer(p.cw, p.cd, c));
  }

  /* --- What a list of writes leaves behind --- */

  predicate Mentions(ws: seq<Write>, k: Key)
  {
    exists i :: 0 <= i < |ws| && ws[i].key == k
  }

  lemma {:induction false} ApplyFrame(db: Db, ws: seq<Write>, k: Key)
    requires !Mentions(ws, k)
    ensures SameAt(Apply(db, ws), db, k)
  {
    if ws != [] {
      var n := |ws| - 1;
      forall i | 0 <= i < n ensures ws[..n][i].key != k { assert ws[i].key != k; }
      ApplyFrame(db, ws[..n], k);
      assert ws[n].key != k;
    }
  }

  /** The last write to a key wins. */
  lemma {:induction false} ApplyLast(db: Db, ws: seq<Write>, i: nat)
    requires i < |ws| && forall j :: i < j < |ws| ==> ws[j].key != ws[i].key
    ensures ws[i].key in Apply(db, ws) && Apply(db, ws)[ws[i].key] == ws[i].value
  {
    var n := |ws| - 1;
    if i < n {
      ApplyLast(db, ws[..n], i);
    }
  }
}
