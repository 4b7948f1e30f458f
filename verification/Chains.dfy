/** The callback chains of `tpcc_new_order.c` and `tpcc_payment.c`, one function per
    callback: from the context and the result of the future that fired to the new
    context, the writes put into the transaction, and what is submitted next. */
module Chains {
  import opened Words
  import opened Keyspace
  import opened Rows
  import opened Serial

  datatype Callback =
    OnWarehouseRead | OnDistrictRead | OnCustomerRead | OnStockRead | OnCommit | OnErrorRetry

  /** What a callback finds in its future. `Ready` is a future without a value. */
  datatype FutureResult = Failed | Unreadable | Absent | Found(value: Row) | Ready

  /** What a response says: a fixed text, or the JSON of a success. */
  datatype Body = Message | OrderPlaced(oid: i32) | PaymentMade(amount: i32)

  /** The last thing a callback does with its context. */
  datatype Action =
    | Get(key: Key, cb: Callback)
    | Commit
    | HandleError
    | Respond(status: nat, body: Body)

  datatype Outcome<C> = Outcome(ctx: C, writes: seq<Write>, action: Action)

  datatype OrderCtx = OrderCtx(
    p: OrderParams,
    dTax: i32,
    dNextOid: i32,
    cDiscount: i32,
    sQuantity: seq<i32>,
    sAmount: seq<i32>,
    currentOl: nat,
    committed: bool)
  {
    /** Array lengths and the loop index bound. */
    ghost predicate Valid()
    {
      |sQuantity| == |sAmount| == MAX_ORDER_LINES && currentOl <= |p.lines|
    }
  }

  datatype PaymentCtx = PaymentCtx(
    p: PaymentParams,
    c: u32,
    wYtd: i64,
    dYtd: i64,
    cBalance: i64,
    cPaymentCnt: i16)

  /** The clock and the generator, read by the callback that needs them. */
  datatype Env = Env(now: i64, rand: nat)

  /* --- NewOrder --- */

  function OrderStart(p: OrderParams): (c: OrderCtx)
    ensures c.Valid()
  {
    OrderCtx(p, 0, 0, 0, seq(MAX_ORDER_LINES, _ => 0), seq(MAX_ORDER_LINES, _ => 0), 0, false)
  }

  function OrderOnDistrictRead(c: OrderCtx, r: FutureResult): Outcome<OrderCtx>
  {
    if r.Failed? then Outcome(c, [], HandleError)
    else if !(r.Found? && r.value.DistrictRow?) then Outcome(c, [], Respond(500, Message))
    else Outcome(c.(dTax := r.value.dTax, dNextOid := r.value.dNextOid), [],
                 Get(Customer(c.p.w, c.p.d, c.p.c), OnCustomerRead))
  }

  function OrderOnCustomerRead(c: OrderCtx, r: FutureResult, now: i64): Outcome<OrderCtx>
    requires c.Valid()
  {
    if r.Failed? then Outcome(c, [], HandleError)
    else if !(r.Found? && r.value.CustomerRow?) then Outcome(c, [], Respond(500, Message))
    else StartStockReads(c.(cDiscount := r.value.cDiscount, currentOl := 0), now)
  }

  /** Reads the stock row of the current line, or buffers all writes and commits. */
  function StartStockReads(c: OrderCtx, now: i64): Outcome<OrderCtx>
    requires c.Valid()
  {
    if c.currentOl >= |c.p.lines|
    then Outcome(c, OrderWrites(c.p, now, c.dNextOid, c.sQuantity, c.sAmount), Commit)
    else Outcome(c, [], Get(StockKeyOf(c.p.lines[c.currentOl]), OnStockRead))
  }

  function OrderOnStockRead(c: OrderCtx, r: FutureResult, now: i64): Outcome<OrderCtx>
    requires c.Valid() && c.currentOl < |c.p.lines|
  {
    if r.Failed? then Outcome(c, [], HandleError)
    else if !(r.Found? && r.value.StockRow?) then Outcome(c, [], Respond(500, Message))
    else
      var l, i := c.p.lines[c.currentOl], c.currentOl;
      StartStockReads(c.(sQuantity := c.sQuantity[i := NewQuantity(r.value.sQuantity, l.quantity)],
                         sAmount := c.sAmount[i := LineAmount(l)],
                         currentOl := i + 1), now)
  }

  function OrderOnCommit(c: OrderCtx, r: FutureResult): Outcome<OrderCtx>
  {
    if r.Failed? then Outcome(c, [], HandleError)
    else Outcome(c.(committed := true), [], Respond(200, OrderPlaced(c.dNextOid)))
  }

  function OrderOnErrorRetry(c: OrderCtx, r: FutureResult): Outcome<OrderCtx>
  {
    if r.Failed? then Outcome(c, [], Respond(503, Message))
    else Outcome(c.(currentOl := 0), [], Get(District(c.p.w, c.p.d), OnDistrictRead))
  }

  /* --- Payment --- */

  function PaymentStart(p: PaymentParams): PaymentCtx
  {
    PaymentCtx(p, p.c, 0, 0, 0, 0)
  }

  const CUSTOMERS_PER_DISTRICT := 3000

  /** `1 + get_random_number(CUSTOMERS_PER_DISTRICT - 1, ...)`; the generator yields 1 to its bound. */
  function CustomerDraw(rand: nat): (c: u32)
    ensures 2 <= c <= CUSTOMERS_PER_DISTRICT && (c - 2 - rand) % (CUSTOMERS_PER_DISTRICT - 1) == 0
  {
    1 + (rand % (CUSTOMERS_PER_DISTRICT - 1) + 1)
  }

  function PaymentOnWarehouseRead(c: PaymentCtx, r: FutureResult): Outcome<PaymentCtx>
  {
    if r.Failed? then Outcome(c, [], HandleError)
    else if !(r.Found? && r.value.WarehouseRow?) then Outcome(c, [], Respond(500, Message))
    else Outcome(c.(wYtd := r.value.wYtd), [], Get(District(c.p.cw, c.p.cd), OnDistrictRead))
  }

  /** A payment by name picks a fresh random customer on every attempt. */
  function PaymentOnDistrictRead(c: PaymentCtx, r: FutureResult, rand: nat): Outcome<PaymentCtx>
  {
    if r.Failed? then Outcome(c, [], HandleError)
    else if !(r.Found? && r.value.DistrictRow?) then Outcome(c, [], Respond(500, Message))
    else
      var id := if c.p.byName then CustomerDraw(rand) else c.c;
      Outcome(c.(dYtd := r.value.dYtd, c := id), [], Get(Customer(c.p.cw, c.p.cd, id), OnCustomerRead))
  }

  function PaymentOnCustomerRead(c: PaymentCtx, r: FutureResult, now: i64): Outcome<PaymentCtx>
  {
    if r.Failed? then Outcome(c, [], HandleError)
    else if !(r.Found? && r.value.CustomerRow?) then Outcome(c, [], Respond(500, Message))
    else
      var c' := c.(cBalance := r.value.cBalance, cPaymentCnt := r.value.cPaymentCnt);
      Outcome(c', PaymentWrites(c.p, c.c, now, c.wYtd, c.dYtd, c'.cBalance, r.value.cYtdPayment, c'.cPaymentCnt),
              Commit)
  }

  function PaymentOnCommit(c: PaymentCtx, r: FutureResult): Outcome<PaymentCtx>
  {
    if r.Failed? then Outcome(c, [], HandleError) else Outcome(c, [], Respond(200, PaymentMade(c.p.amount)))
  }

  function PaymentOnErrorRetry(c: PaymentCtx, r: FutureResult): Outcome<PaymentCtx>
  {
    if r.Failed? then Outcome(c, [], Respond(503, Message))
    else Outcome(c, [], Get(Warehouse(c.p.w), OnWarehouseRead))
  }

  /* --- Either chain --- */

  datatype Ctx = OrderChain(o: OrderCtx) | PaymentChain(q: PaymentCtx)
  {
    ghost predicate Valid()
    {
      OrderChain? ==> o.Valid()
    }
  }

  /** A callback the chain can have registered in this state of its context. */
  ghost predicate Registered(c: Ctx, cb: Callback)
  {
    match c
    case OrderChain(o) => cb != OnWarehouseRead && (cb == OnStockRead ==> o.currentOl < |o.p.lines|)
    case PaymentChain(_) => cb != OnStockRead
  }

  function WrapOrder(o: Outcome<OrderCtx>): Outcome<Ctx> { Outcome(OrderChain(o.ctx), o.writes, o.action) }

  function WrapPayment(q: Outcome<PaymentCtx>): Outcome<Ctx> { Outcome(PaymentChain(q.ctx), q.writes, q.action) }

  /** Runs callback `cb` on a fired future. */
  function Fire(c: Ctx, cb: Callback, r: FutureResult, env: Env): (out: Outcome<Ctx>)
    requires c.Valid() && Registered(c, cb)
    ensures out.ctx.Valid() && out.ctx.OrderChain? == c.OrderChain?
    ensures out.action.Get? ==> Registered(out.ctx, out.action.cb)
    ensures !out.action.Commit? ==> out.writes == []
  {
    match c
    case OrderChain(o) =>
      WrapOrder(
        match cb
        case OnDistrictRead => OrderOnDistrictRead(o, r)
        case OnCustomerRead => OrderOnCustomerRead(o, r, env.now)
        case OnStockRead => OrderOnStockRead(o, r, env.now)
        case OnCommit => OrderOnCommit(o, r)
        case OnErrorRetry => OrderOnErrorRetry(o, r))
    case PaymentChain(q) =>
      WrapPayment(
        match cb
        case OnWarehouseRead => PaymentOnWarehouseRead(q, r)
        case OnDistrictRead => PaymentOnDistrictRead(q, r, env.rand)
        case OnCustomerRead => PaymentOnCustomerRead(q, r, env.now)
        case OnCommit => PaymentOnCommit(q, r)
        case OnErrorRetry => PaymentOnErrorRetry(q, r))
  }

  /** The read that starts, and restarts, a chain. */
  function FirstGet(c: Ctx): Action
  {
    match c
    case OrderChain(o) => Get(District(o.p.w, o.p.d), OnDistrictRead)
    case PaymentChain(q) => Get(Warehouse(q.p.w), OnWarehouseRead)
  }
}
