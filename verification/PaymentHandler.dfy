/** The Payment callbacks as `tpcc_payment.c` runs them, proved against `Chains` like the
    NewOrder ones. */
module PaymentHandler {
  import opened Words
  import opened Keyspace
  import opened KeyBuilders
  import opened Rows
  import opened Serial
  import opened Chains
  import opened FlatStore
  import opened Transactions

  /** `payment_ctx_t` */
  class Context {
    const tr: Transaction
    const wId: u32
    const cWId: u32
    const cDId: u32
    const paramCId: u32
    const byName: bool
    const hAmount: i32
    var cId: u32
    var wYtd: i64
    var dYtd: i64
    var cBalance: i64
    var cPaymentCnt: i16
    var live: bool

    ghost predicate Valid()
      reads this, tr
    {
      live && tr.live
    }

    /** The context as the row machine sees it. */
    ghost function Abs(): PaymentCtx
      reads this
    {
      PaymentCtx(PaymentParams(wId, cWId, cDId, paramCId, byName, hAmount), cId, wYtd, dYtd, cBalance, cPaymentCnt)
    }

    /** The callback ended with call `a`, after the context, the transaction and the call became
        what `out` says. A response frees both, exactly once; nothing else does. */
    ghost predicate Did(out: Outcome<PaymentCtx>, before: seq<FlatWrite>, a: Call)
      reads this, tr
    {
      && a == EncodeAction(out.action)
      && tr.buffer == before + EncodeWrites(out.writes)
      && if out.action.Respond? then !live && !tr.live else Valid() && Abs() == out.ctx
    }

    /** The context of a request, as `tpcc_payment_execute` leaves it. */
    constructor (p: PaymentParams, t: Transaction)
      requires t.live
      ensures Valid() && tr == t && Abs() == PaymentStart(p)
    {
      tr, wId, cWId, cDId, paramCId, cId := t, p.w, p.cw, p.cd, p.c, p.c;
      byName, hAmount := p.byName, p.amount;
      wYtd, dYtd, cBalance, cPaymentCnt, live := 0, 0, 0, 0, true;
    }

    /** `finish_payment` */
    method Finish(status: nat) returns (a: Call)
      requires Valid()
      modifies `live, tr`live
      ensures a == Response(status, Message) && !live && !tr.live
    {
      a := Response(status, Message);
      tr.Destroy();
      live := false;
    }

    /** `on_warehouse_read` */
    method OnWarehouseRead(f: RawFuture) returns (a: Call)
      requires Valid()
      modifies `wYtd, `live, tr`live
      ensures Did(PaymentOnWarehouseRead(old(Abs()), Seen(Warehouse(wId), f)), old(tr.buffer), a)
      ensures ReadAnswers(f, SIZEOF_WAREHOUSE, a)
    {
      if f.failed { return OnErrorCall; }
      if f.unreadable || !f.present || |f.value| < SIZEOF_WAREHOUSE {
        a := Finish(500);
        return;
      }
      wYtd := ReadI64(f.value, 85);
      var dkey := new byte[64];
      var klen := DistrictKey(dkey, cWId, cDId);
      a := GetCall(dkey[..klen], Callback.OnDistrictRead);
    }

    /** `on_district_read`; `rand` is what the generator yields next. */
    method OnDistrictRead(f: RawFuture, rand: nat) returns (a: Call)
      requires Valid()
      modifies `dYtd, `cId, `live, tr`live
      ensures Did(PaymentOnDistrictRead(old(Abs()), Seen(District(cWId, cDId), f), rand), old(tr.buffer), a)
      ensures ReadAnswers(f, SIZEOF_DISTRICT, a)
    {
      if f.failed { return OnErrorCall; }
      if f.unreadable || !f.present || |f.value| < SIZEOF_DISTRICT {
        a := Finish(500);
        return;
      }
      dYtd := ReadI64(f.value, 85);
      if byName { cId := CustomerDraw(rand); }
      var ckey := new byte[64];
      var klen := CustomerKey(ckey, cWId, cDId, cId);
      a := GetCall(ckey[..klen], Callback.OnCustomerRead);
    }

    /** `on_customer_read` */
    method OnCustomerRead(f: RawFuture, now: i64) returns (a: Call)
      requires Valid()
      modifies `cBalance, `cPaymentCnt, `live, tr
      ensures Did(PaymentOnCustomerRead(old(Abs()), Seen(Customer(cWId, cDId, old(cId)), f), now), old(tr.buffer), a)
      ensures ReadAnswers(f, SIZEOF_CUSTOMER, a)
    {
      if f.failed { return OnErrorCall; }
      if f.unreadable || !f.present || |f.value| < SIZEOF_CUSTOMER {
        a := Finish(500);
        return;
      }
      cBalance := ReadI64(f.value, 143);
      cPaymentCnt := ReadI16(f.value, 159);
      SetRows(ReadI64(f.value, 151), now);
      a := CommitCall;
    }

    /** The four rows `on_customer_read` writes. */
    method SetRows(ytdPayment: i64, now: i64)
      requires Valid()
      modifies tr
      ensures Valid()
      ensures tr.buffer == old(tr.buffer)
        + EncodeWrites(PaymentWrites(Abs().p, cId, now, wYtd, dYtd, cBalance, ytdPayment, cPaymentCnt))
    {
      ghost var ws := PaymentWrites(Abs().p, cId, now, wYtd, dYtd, cBalance, ytdPayment, cPaymentCnt);
      ghost var before := tr.buffer;
      SetWarehouse(before, ws);
      SetDistrict(before, ws);
      SetCustomer(ytdPayment, before, ws);
      SetHistory(now, before, ws);
      assert ws[..4] == ws;
    }

    method SetWarehouse(ghost before: seq<FlatWrite>, ghost ws: seq<Write>)
      requires Valid() && |ws| == 4
      requires ws[0] == Write(Warehouse(wId),
                           WarehouseRow(I64(wYtd + hAmount)))
      requires tr.buffer == before + EncodeWrites(ws[..0])
      modifies tr
      ensures Valid() && tr.buffer == before + EncodeWrites(ws[..1])
    {
      var wkey := new byte[64];
      var klen := WarehouseKey(wkey, wId);
      tr.SetRow(wkey[..klen], WarehouseRow(I64(wYtd + hAmount)), before, ws, 0);
    }

    method SetDistrict(ghost before: seq<FlatWrite>, ghost ws: seq<Write>)
      requires Valid() && |ws| == 4
      requires ws[1] == Write(District(cWId, cDId),
                           DistrictRow(0, I64(dYtd + hAmount), 0))
      requires tr.buffer == before + EncodeWrites(ws[..1])
      modifies tr
      ensures Valid() && tr.buffer == before + EncodeWrites(ws[..2])
    {
      var dkey := new byte[64];
      var klen := DistrictKey(dkey, cWId, cDId);
      tr.SetRow(dkey[..klen], DistrictRow(0, I64(dYtd + hAmount), 0), before, ws, 1);
    }

    method SetCustomer(ytdPayment: i64, ghost before: seq<FlatWrite>, ghost ws: seq<Write>)
      requires Valid() && |ws| == 4
      requires ws[2] == Write(Customer(cWId, cDId, cId),
                           CustomerRow(0, I64(cBalance - hAmount), I64(ytdPayment + hAmount), I16(cPaymentCnt + 1)))
      requires tr.buffer == before + EncodeWrites(ws[..2])
      modifies tr
      ensures Valid() && tr.buffer == before + EncodeWrites(ws[..3])
    {
      var ckey := new byte[64];
      var klen := CustomerKey(ckey, cWId, cDId, cId);
      tr.SetRow(ckey[..klen],
                CustomerRow(0, I64(cBalance - hAmount), I64(ytdPayment + hAmount), I16(cPaymentCnt + 1)),
                before, ws, 2);
    }

    method SetHistory(now: i64, ghost before: seq<FlatWrite>, ghost ws: seq<Write>)
      requires Valid() && |ws| == 4
      requires ws[3] == Write(History(wId, cWId, cDId, cId, U32(now)),
                           HistoryRow(now, hAmount))
      requires tr.buffer == before + EncodeWrites(ws[..3])
      modifies tr
      ensures Valid() && tr.buffer == before + EncodeWrites(ws[..4])
    {
      var hkey := new byte[128];
      var hlen := HistoryKey(hkey, wId, cWId, cDId, cId, U32(now));
      tr.SetRow(hkey[..hlen], HistoryRow(now, hAmount), before, ws, 3);
    }

    /** `on_commit` */
    method OnCommit(f: RawFuture) returns (a: Call)
      requires Valid()
      modifies `live, tr`live
      ensures Did(PaymentOnCommit(old(Abs()), Transactions.Settled(f)), old(tr.buffer), a)
      ensures CommitAnswers(f, a)
    {
      if f.failed { return OnErrorCall; }
      a := Response(200, PaymentMade(hAmount));
      tr.Destroy();
      live := false;
    }

    /** `on_error_retry` */
    method OnErrorRetry(f: RawFuture) returns (a: Call)
      requires Valid()
      modifies `live, tr`live
      ensures Did(PaymentOnErrorRetry(old(Abs()), Transactions.Settled(f)), old(tr.buffer), a)
      ensures ErrorAnswers(f, Warehouse(wId), a)
    {
      if f.failed {
        a := Finish(503);
        return;
      }
      var wkey := new byte[64];
      var klen := WarehouseKey(wkey, wId);
      a := GetCall(wkey[..klen], Callback.OnWarehouseRead);
    }
  }
}
