/** The NewOrder callbacks as `tpcc_new_order.c` runs them: each mutates the context in place,
    fills key buffers and sets bytes in the transaction. Every method is proved to do to the
    context and to the transaction what its function in `Chains` says. */
module NewOrderHandler {
  import opened Words
  import opened Keyspace
  import opened KeyBuilders
  import opened Rows
  import opened Serial
  import opened Chains
  import opened FlatStore
  import opened Transactions

  function MakeLines(supply: seq<byte>, items: seq<u32>, quantities: seq<byte>, n: nat): (ls: seq<Line>)
    requires n <= |supply| && n <= |items| && n <= |quantities|
    ensures |ls| == n
  {
    seq(n, i requires 0 <= i < n => Line(supply[i], items[i], quantities[i]))
  }

  lemma EncodeOrder(before: seq<FlatWrite>, p: OrderParams, now: i64, oid: i32,
                    quantities: seq<i32>, amounts: seq<i32>)
    requires |p.lines| <= |quantities| && |p.lines| <= |amounts|
    ensures before + EncodeWrites(OrderWrites(p, now, oid, quantities, amounts))
         == before + EncodeWrites(HeadWrites(p, now, oid)) + EncodeWrites(LineWrites(p, oid, amounts))
            + EncodeWrites([CounterWrite(p, oid)]) + EncodeWrites(StockWrites(p, quantities))
  {
    var head, lines, counter := HeadWrites(p, now, oid), LineWrites(p, oid, amounts), [CounterWrite(p, oid)];
    EncodeConcat(head, lines);
    EncodeConcat(head + lines, counter);
    EncodeConcat(head + lines + counter, StockWrites(p, quantities));
  }

  /** The context after the current line found `quantity` in stock. */
  ghost function Taken(c: OrderCtx, quantity: i32): OrderCtx
    requires c.Valid() && c.currentOl < |c.p.lines|
  {
    var l, i := c.p.lines[c.currentOl], c.currentOl;
    c.(sQuantity := c.sQuantity[i := NewQuantity(quantity, l.quantity)],
       sAmount := c.sAmount[i := LineAmount(l)],
       currentOl := i + 1)
  }

  /** `new_order_ctx_t` */
  class Context {
    const tr: Transaction
    const wId: u32
    const dId: u32
    const cId: u32
    const olCnt: byte
    const allLocal: bool
    const olSupplyW: array<byte>
    const olIId: array<u32>
    const olQuantity: array<byte>
    var dTax: i32
    var dNextOid: i32
    var cDiscount: i32
    const sQuantity: array<i32>
    const sAmount: array<i32>
    var currentOl: byte
    var committed: bool
    var live: bool

    ghost predicate Valid()
      reads this, tr, olSupplyW, olIId, olQuantity, sQuantity, sAmount
    {
      && live && tr.live
      && olSupplyW.Length == olIId.Length == olQuantity.Length == MAX_ORDER_LINES
      && sQuantity.Length == sAmount.Length == MAX_ORDER_LINES
      && sQuantity != sAmount
      && currentOl <= olCnt <= MAX_ORDER_LINES
    }

    ghost function Params(): OrderParams
      requires Valid()
      reads this, tr, olSupplyW, olIId, olQuantity, sQuantity, sAmount
    {
      OrderParams(wId, dId, cId, MakeLines(olSupplyW[..], olIId[..], olQuantity[..], olCnt), allLocal)
    }

    /** The context as the row machine sees it. */
    ghost function Abs(): (c: OrderCtx)
      requires Valid()
      ensures c.Valid()
      reads this, tr, olSupplyW, olIId, olQuantity, sQuantity, sAmount
    {
      OrderCtx(Params(), dTax, dNextOid, cDiscount, sQuantity[..], sAmount[..], currentOl, committed)
    }

    /** The context of a request, as `tpcc_new_order_execute` leaves it: `calloc` zeroes what
        the parameters do not set. */
    constructor (p: OrderParams, t: Transaction)
      requires t.live
      ensures Valid() && tr == t && Abs() == OrderStart(p)
      ensures fresh(olSupplyW) && fresh(olIId) && fresh(olQuantity) && fresh(sQuantity) && fresh(sAmount)
    {
      tr, wId, dId, cId, allLocal := t, p.w, p.d, p.c, p.allLocal;
      olCnt := |p.lines|;
      olSupplyW := new byte[MAX_ORDER_LINES](_ => 0);
      olIId := new u32[MAX_ORDER_LINES](_ => 0);
      olQuantity := new byte[MAX_ORDER_LINES](_ => 0);
      sQuantity := new i32[MAX_ORDER_LINES](_ => 0);
      sAmount := new i32[MAX_ORDER_LINES](_ => 0);
      dTax, dNextOid, cDiscount, currentOl, committed, live := 0, 0, 0, 0, false, true;
      new;
      var i := 0;
      while i < olCnt
        invariant 0 <= i <= olCnt
        invariant forall j :: 0 <= j < i ==> Line(olSupplyW[j], olIId[j], olQuantity[j]) == p.lines[j]
        invariant forall j :: 0 <= j < MAX_ORDER_LINES ==> sQuantity[j] == 0 && sAmount[j] == 0
        modifies olSupplyW, olIId, olQuantity
      {
        olIId[i] := p.lines[i].item;
        olSupplyW[i] := p.lines[i].supply;
        olQuantity[i] := p.lines[i].quantity;
        i := i + 1;
      }
      assert Params().lines == p.lines;
      assert sQuantity[..] == OrderStart(p).sQuantity && sAmount[..] == OrderStart(p).sAmount;
    }

    /** The callback ended with call `a`, after the context, the transaction and the call became
        what `out` says. A response frees both, exactly once; nothing else does. */
    ghost predicate Did(out: Outcome<OrderCtx>, before: seq<FlatWrite>, a: Call)
      reads this, tr, olSupplyW, olIId, olQuantity, sQuantity, sAmount
    {
      && a == EncodeAction(out.action)
      && tr.buffer == before + EncodeWrites(out.writes)
      && if out.action.Respond? then !live && !tr.live else Valid() && Abs() == out.ctx
    }

    /** `finish_new_order` */
    method Finish(status: nat) returns (a: Call)
      requires Valid()
      modifies `live, tr`live
      ensures a == Response(status, Message) && !live && !tr.live
    {
      a := Response(status, Message);
      tr.Destroy();
      live := false;
    }

    /** `on_district_read` */
    method OnDistrictRead(f: RawFuture) returns (a: Call)
      requires Valid()
      modifies `dTax, `dNextOid, `live, tr`live
      ensures Did(OrderOnDistrictRead(old(Abs()), Seen(District(wId, dId), f)), old(tr.buffer), a)
      ensures ReadAnswers(f, SIZEOF_DISTRICT, a)
    {
      if f.failed { return OnErrorCall; }
      if f.unreadable || !f.present || |f.value| < SIZEOF_DISTRICT {
        a := Finish(500);
        return;
      }
      dTax := ReadI32(f.value, 81);
      dNextOid := ReadI32(f.value, 93);
      var ckey := new byte[64];
      var klen := CustomerKey(ckey, wId, dId, cId);
      a := GetCall(ckey[..klen], Callback.OnCustomerRead);
    }

    /** `on_customer_read` */
    method OnCustomerRead(f: RawFuture, now: i64) returns (a: Call)
      requires Valid()
      modifies `cDiscount, `currentOl, `live, tr
      ensures Did(OrderOnCustomerRead(old(Abs()), Seen(Customer(wId, dId, cId), f), now), old(tr.buffer), a)
      ensures ReadAnswers(f, SIZEOF_CUSTOMER, a)
    {
      if f.failed { return OnErrorCall; }
      if f.unreadable || !f.present || |f.value| < SIZEOF_CUSTOMER {
        a := Finish(500);
        return;
      }
      cDiscount := ReadI32(f.value, 139);
      currentOl := 0;
      a := StartStockReads(now);
    }

    /** `start_stock_reads`: reads the stock row of the current line; after the last line buffers
        all writes, in this order, and commits. */
    method StartStockReads(now: i64) returns (a: Call)
      requires Valid()
      modifies tr
      ensures Did(Chains.StartStockReads(old(Abs()), now), old(tr.buffer), a)
    {
      if currentOl >= olCnt {
        SetOrder(dNextOid, now);
        return CommitCall;
      }
      var skey := new byte[64];
      var klen := StockKey(skey, olSupplyW[currentOl], olIId[currentOl]);
      a := GetCall(skey[..klen], Callback.OnStockRead);
    }

    /** All rows of the order. */
    method SetOrder(oid: i32, now: i64)
      requires Valid()
      modifies tr
      ensures Valid()
      ensures tr.buffer == old(tr.buffer) + EncodeWrites(OrderWrites(Params(), now, oid, sQuantity[..], sAmount[..]))
    {
      ghost var p, quantities, amounts := Params(), sQuantity[..], sAmount[..];
      SetHead(oid, now);
      assert Params() == p && sQuantity[..] == quantities && sAmount[..] == amounts;
      SetLines(oid);
      assert Params() == p && sQuantity[..] == quantities;
      SetCounter(oid);
      assert Params() == p && sQuantity[..] == quantities;
      SetStocks();
      EncodeOrder(old(tr.buffer), p, now, oid, quantities, amounts);
    }

    /** The order row and the new_order marker. */
    method SetHead(oid: i32, now: i64)
      requires Valid()
      modifies tr
      ensures Valid() && tr.buffer == old(tr.buffer) + EncodeWrites(HeadWrites(Params(), now, oid))
      ensures HeadWrites(Params(), now, oid)
        == [Write(Order(wId, dId, U32(oid)), OrderRow(cId, -1, olCnt, if allLocal then 1 else 0, now)),
            Write(NewOrder(wId, dId, U32(oid)), Blob([0]))]
    {
      ghost var ws := HeadWrites(Params(), now, oid);
      var okey := new byte[64];
      var klen := OrderKey(okey, wId, dId, U32(oid));
      tr.SetRow(okey[..klen], OrderRow(cId, -1, olCnt, if allLocal then 1 else 0, now), old(tr.buffer), ws, 0);
      var nokey := new byte[64];
      klen := NewOrderKey(nokey, wId, dId, U32(oid));
      tr.SetRow(nokey[..klen], Blob([0]), old(tr.buffer), ws, 1);
      assert ws[..2] == ws;
    }

    /** The loop over the order lines. */
    method SetLines(oid: i32)
      requires Valid()
      modifies tr
      ensures Valid() && tr.buffer == old(tr.buffer) + EncodeWrites(LineWrites(Params(), oid, sAmount[..]))
    {
      ghost var ws := LineWrites(Params(), oid, sAmount[..]);
      var i := 0;
      while i < olCnt
        invariant 0 <= i <= olCnt && Valid()
        invariant tr.buffer == old(tr.buffer) + EncodeWrites(ws[..i])
      {
        var olkey := new byte[64];
        var klen := OrderLineKey(olkey, wId, dId, U32(oid), i + 1);
        tr.SetRow(olkey[..klen], OrderLineRow(olIId[i], olSupplyW[i], olQuantity[i], sAmount[i]),
                  old(tr.buffer), ws, i);
        i := i + 1;
      }
      assert ws[..olCnt] == ws;
    }

    /** The next order id. */
    method SetCounter(oid: i32)
      requires Valid()
      modifies tr
      ensures Valid() && tr.buffer == old(tr.buffer) + EncodeWrites([CounterWrite(Params(), oid)])
    {
      var nidKey := new byte[64];
      var nidKlen := NextOidKey(nidKey, wId, dId);
      ghost var ws := [CounterWrite(Params(), oid)];
      tr.SetRow(nidKey[..nidKlen], CounterRow(I32(oid + 1)), old(tr.buffer), ws, 0);
      assert ws[..1] == ws;
    }

    /** The loop over the stock rows. */
    method SetStocks()
      requires Valid()
      modifies tr
      ensures Valid() && tr.buffer == old(tr.buffer) + EncodeWrites(StockWrites(Params(), sQuantity[..]))
    {
      ghost var ws := StockWrites(Params(), sQuantity[..]);
      var i := 0;
      while i < olCnt
        invariant 0 <= i <= olCnt && Valid()
        invariant tr.buffer == old(tr.buffer) + EncodeWrites(ws[..i])
      {
        var skey := new byte[64];
        var klen := StockKey(skey, olSupplyW[i], olIId[i]);
        tr.SetRow(skey[..klen], StockRow(sQuantity[i], olQuantity[i], 1), old(tr.buffer), ws, i);
        i := i + 1;
      }
      assert ws[..olCnt] == ws;
    }

    /** The part of `on_stock_read` that records the line and moves on. */
    method TakeStock(quantity: i32)
      requires Valid() && currentOl < olCnt
      modifies `currentOl, sQuantity, sAmount
      ensures Valid() && Abs() == Taken(old(Abs()), quantity)
    {
      var idx := currentOl;
      var newQty := I32(quantity - olQuantity[idx]);
      if newQty < 10 { newQty := newQty + 91; }
      sQuantity[idx] := newQty;
      sAmount[idx] := olQuantity[idx] as int * 100;
      currentOl := currentOl + 1;
      assert sQuantity[..] == old(sQuantity[..])[idx := newQty];
      assert sAmount[..] == old(sAmount[..])[idx := olQuantity[idx] as int * 100];
    }

    /** `on_stock_read` */
    method OnStockRead(f: RawFuture, now: i64) returns (a: Call)
      requires Valid() && currentOl < olCnt
      modifies `currentOl, `live, tr, sQuantity, sAmount
      ensures Did(OrderOnStockRead(old(Abs()), Seen(StockKeyOf(old(Params().lines[currentOl])), f), now),
                  old(tr.buffer), a)
      ensures ReadAnswers(f, SIZEOF_STOCK, a)
    {
      if f.failed { return OnErrorCall; }
      if f.unreadable || !f.present || |f.value| < SIZEOF_STOCK {
        a := Finish(500);
        return;
      }
      TakeStock(ReadI32(f.value, 0));
      a := StartStockReads(now);
    }

    /** `on_commit` */
    method OnCommit(f: RawFuture) returns (a: Call)
      requires Valid()
      modifies `committed, `live, tr`live
      ensures Did(OrderOnCommit(old(Abs()), Transactions.Settled(f)), old(tr.buffer), a)
      ensures CommitAnswers(f, a)
    {
      if f.failed { return OnErrorCall; }
      committed := true;
      a := Response(200, OrderPlaced(dNextOid));
      tr.Destroy();
      live := false;
    }

    /** `on_error_retry` */
    method OnErrorRetry(f: RawFuture) returns (a: Call)
      requires Valid()
      modifies `currentOl, `live, tr`live
      ensures Did(OrderOnErrorRetry(old(Abs()), Transactions.Settled(f)), old(tr.buffer), a)
      ensures ErrorAnswers(f, District(wId, dId), a)
    {
      if f.failed {
        a := Finish(503);
        return;
      }
      currentOl := 0;
      var dkey := new byte[64];
      var klen := DistrictKey(dkey, wId, dId);
      a := GetCall(dkey[..klen], Callback.OnDistrictRead);
    }
  }
}
