/** Order rows, their `new_order` rows and their lines over serial executions. */
module Orders {
  import opened Words
  import opened Keyspace
  import opened Rows
  import opened Serial
  import opened Tables

  /** The request is a NewOrder that runs on `db` with order key `(w, d, o)`. */
  predicate Places(db: Db, r: Req, w: u32, d: u32, o: u32)
  {
    r.OrderReq? && OrderReady(r.order, db) && r.order.w == w && r.order.d == d && U32(OrderId(r.order, db)) == o
  }

  /** The last request that placed order `(w, d, o)`. */
  function LastPlaced(db: Db, rs: seq<Req>, w: u32, d: u32, o: u32): (r: Option<Req>)
    ensures r.Some? ==> r.value.OrderReq? && r.value.order.w == w && r.value.order.d == d
  {
    if rs == [] then None
    else if Places(Exec(db, rs[..|rs| - 1]), rs[|rs| - 1], w, d, o) then Some(rs[|rs| - 1])
    else LastPlaced(db, rs[..|rs| - 1], w, d, o)
  }

  function Max(x: nat, y: nat): nat { if x < y then y else x }

  /** The largest number of lines any request placed under `(w, d, o)`. */
  function MostLines(db: Db, rs: seq<Req>, w: u32, d: u32, o: u32): nat
  {
    if rs == [] then 0
    else
      var before := MostLines(db, rs[..|rs| - 1], w, d, o);
      if Places(Exec(db, rs[..|rs| - 1]), rs[|rs| - 1], w, d, o) then Max(before, |rs[|rs| - 1].order.lines|)
      else before
  }

  predicate NoOrder(db: Db, w: u32, d: u32, o: u32)
  {
    && Order(w, d, o) !in db && NewOrder(w, d, o) !in db
    && forall n: u32 :: OrderLine(w, d, o, n) !in db
  }

  /** A stored line: what was ordered, at 100 apiece. */
  predicate IsLine(r: Row, l: Line)
  {
    r == OrderLineRow(l.item, l.supply, l.quantity, 100 * l.quantity as int)
  }

  /** A stored order: who ordered how many lines, from where and when; not yet delivered. */
  predicate IsOrder(r: Row, p: OrderParams, now: i64)
  {
    r == OrderRow(p.c, -1, |p.lines|, if p.allLocal then 1 else 0, now)
  }

  /** The rows of `(w, d, o)` are those of request `r`, whose lines may be followed by older ones. */
  ghost predicate OrderIs(db: Db, r: Option<Req>, lines: nat, w: u32, d: u32, o: u32)
    requires r.Some? ==> r.value.OrderReq?
  {
    && (Order(w, d, o) in db <==> r.Some?)
    && (NewOrder(w, d, o) in db <==> r.Some?)
    && (r.Some? ==>
          && IsOrder(db[Order(w, d, o)], r.value.order, r.value.now)
          && db[NewOrder(w, d, o)] == Blob([0])
          && |r.value.order.lines| <= lines
          && forall i :: 0 <= i < |r.value.order.lines| ==>
               OrderLine(w, d, o, i + 1) in db && IsLine(db[OrderLine(w, d, o, i + 1)], r.value.order.lines[i]))
    && forall n: u32 :: OrderLine(w, d, o, n) in db <==> 1 <= n <= lines
  }

  lemma PlacedRows(db: Db, r: Req, before: Option<Req>, lines: nat, w: u32, d: u32, o: u32)
    requires Effect(r, db).Some? && Places(db, r, w, d, o)
    requires (before.Some? ==> before.value.OrderReq?) && OrderIs(db, before, lines, w, d, o)
    ensures OrderIs(ExecOne(db, r), Some(r), Max(lines, |r.order.lines|), w, d, o)
  {
    var p, db' := r.order, ExecOne(db, r);
    OrderHeads(db, p, r.now);
    forall i | 0 <= i < |p.lines|
      ensures OrderLine(w, d, o, i + 1) in db' && IsLine(db'[OrderLine(w, d, o, i + 1)], p.lines[i])
    {
      OrderLines(db, p, r.now, i);
    }
    forall n: u32
      ensures OrderLine(w, d, o, n) in db' <==> 1 <= n <= Max(lines, |p.lines|)
    {
      if 1 <= n <= |p.lines| {
        OrderLines(db, p, r.now, n - 1);
      } else {
        OrderFrame(db, p, r.now, OrderLine(w, d, o, n));
      }
    }
  }

  lemma OtherRowsStay(db: Db, r: Req, k: Key, w: u32, d: u32, o: u32)
    requires Effect(r, db).Some? && !Places(db, r, w, d, o)
    requires k == Order(w, d, o) || k == NewOrder(w, d, o) || (k.OrderLine? && k == OrderLine(w, d, o, k.number))
    ensures SameAt(ExecOne(db, r), db, k)
  {
    match r
    case OrderReq(p, now) => OrderFrame(db, p, now, k);
    case PaymentReq(p, c, now) => PaymentFrame(db, p, c, now, k);
  }

  lemma NotPlacedRows(db: Db, r: Req, before: Option<Req>, lines: nat, w: u32, d: u32, o: u32)
    requires Effect(r, db).Some? && !Places(db, r, w, d, o)
    requires (before.Some? ==> before.value.OrderReq?) && OrderIs(db, before, lines, w, d, o)
    ensures OrderIs(ExecOne(db, r), before, lines, w, d, o)
  {
    OtherRowsStay(db, r, Order(w, d, o), w, d, o);
    OtherRowsStay(db, r, NewOrder(w, d, o), w, d, o);
    forall n: u32
      ensures SameAt(ExecOne(db, r), db, OrderLine(w, d, o, n))
    {
      OtherRowsStay(db, r, OrderLine(w, d, o, n), w, d, o);
    }
    if before.Some? {
      forall i | 0 <= i < |before.value.order.lines|
        ensures OrderLine(w, d, o, i + 1) in ExecOne(db, r)
             && IsLine(ExecOne(db, r)[OrderLine(w, d, o, i + 1)], before.value.order.lines[i])
      {
        OtherRowsStay(db, r, OrderLine(w, d, o, i + 1), w, d, o);
      }
    }
  }

  /** Main result: an order row exists exactly when its `new_order` row exists, with carrier -1
      (section 3.3.2.5 of TPC-C v5.11); the row and lines 1 to `o_ol_cnt` all come from the last
      request that used the id; the lines present are 1 to the largest count ever used. */
  lemma {:induction false} OrderStructure(db: Db, rs: seq<Req>, w: u32, d: u32, o: u32)
    requires AllApply(db, rs) && NoOrder(db, w, d, o)
    ensures OrderIs(Exec(db, rs), LastPlaced(db, rs, w, d, o), MostLines(db, rs, w, d, o), w, d, o)
  {
    if rs != [] {
      var n := |rs| - 1;
      var mid := Exec(db, rs[..n]);
      OrderStructure(db, rs[..n], w, d, o);
      if Places(mid, rs[n], w, d, o) {
        PlacedRows(mid, rs[n], LastPlaced(db, rs[..n], w, d, o), MostLines(db, rs[..n], w, d, o), w, d, o);
      } else {
        NotPlacedRows(mid, rs[n], LastPlaced(db, rs[..n], w, d, o), MostLines(db, rs[..n], w, d, o), w, d, o);
      }
    }
  }

  /** The lines present are exactly 1 to `o_ol_cnt` if and only if no earlier request with the
      same id had more lines than the last one; otherwise stale lines of an older order remain. */
  lemma LineCountRight(db: Db, rs: seq<Req>, w: u32, d: u32, o: u32)
    requires AllApply(db, rs) && NoOrder(db, w, d, o) && LastPlaced(db, rs, w, d, o).Some?
    ensures var db', r := Exec(db, rs), LastPlaced(db, rs, w, d, o).value;
      && Order(w, d, o) in db' && db'[Order(w, d, o)].OrderRow?
      && db'[Order(w, d, o)].oCarrier == -1 && db'[Order(w, d, o)].oLineCnt == |r.order.lines|
      && ((forall n: u32 :: OrderLine(w, d, o, n) in db' <==> 1 <= n <= db'[Order(w, d, o)].oLineCnt as int)
          <==> MostLines(db, rs, w, d, o) == |r.order.lines|)
  {
    OrderStructure(db, rs, w, d, o);
    MostIsSmall(db, rs, w, d, o);
    var most: u32 := MostLines(db, rs, w, d, o);
    assert OrderLine(w, d, o, most) in Exec(db, rs) <==> 1 <= most;
  }

  lemma {:induction false} MostIsSmall(db: Db, rs: seq<Req>, w: u32, d: u32, o: u32)
    ensures MostLines(db, rs, w, d, o) <= MAX_ORDER_LINES
  {
    if rs != [] { MostIsSmall(db, rs[..|rs| - 1], w, d, o); }
  }
}
