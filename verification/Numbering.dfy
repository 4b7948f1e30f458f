/** Order numbers over serial executions: what the code does, and what it would do if line 73
    of `tpcc_new_order.c` read the counter it advances. */
module Numbering {
  import opened Words
  import opened Keyspace
  import opened Rows
  import opened Serial
  import opened Tables

  predicate OrdersFrom(r: Req, w: u32, d: u32)
  {
    r.OrderReq? && r.order.w == w && r.order.d == d
  }

  predicate PaysInto(r: Req, w: u32, d: u32)
  {
    r.PaymentReq? && r.payment.cw == w && r.payment.cd == d
  }

  predicate PaidInto(rs: seq<Req>, w: u32, d: u32)
  {
    exists i :: 0 <= i < |rs| && PaysInto(rs[i], w, d)
  }

  /** The order id request `j` uses. */
  function IdAt(db: Db, rs: seq<Req>, j: nat): i32
    requires j < |rs| && rs[j].OrderReq? && OrderReady(rs[j].order, Exec(db, rs[..j]))
  {
    OrderId(rs[j].order, Exec(db, rs[..j]))
  }

  /* --- The id in the district row --- */

  predicate DistrictStep(db: Db, db': Db, r: Req, w: u32, d: u32)
  {
    && (HasDistrict(db', District(w, d)) <==> HasDistrict(db, District(w, d)))
    && (HasDistrict(db, District(w, d)) ==>
          db'[District(w, d)].dNextOid == if PaysInto(r, w, d) then 0 else db[District(w, d)].dNextOid)
  }

  lemma ExecOneDistrict(db: Db, r: Req, w: u32, d: u32)
    requires Effect(r, db).Some?
    ensures DistrictStep(db, ExecOne(db, r), r, w, d)
  {
    match r
    case OrderReq(p, now) => OrderFrame(db, p, now, District(w, d));
    case PaymentReq(p, c, now) =>
      if PaysInto(r, w, d) {
        PaymentDistrict(db, p, c, now);
      } else {
        PaymentFrame(db, p, c, now, District(w, d));
      }
  }

  /** The next order id in the district row never moves, except that the first payment into the
      district clears it for good. */
  lemma {:induction false} DistrictIdFrozen(db: Db, rs: seq<Req>, w: u32, d: u32)
    requires AllApply(db, rs)
    ensures HasDistrict(Exec(db, rs), District(w, d)) <==> HasDistrict(db, District(w, d))
    ensures HasDistrict(db, District(w, d)) ==>
      Exec(db, rs)[District(w, d)].dNextOid == if PaidInto(rs, w, d) then 0 else db[District(w, d)].dNextOid
  {
    if rs != [] {
      var n := |rs| - 1;
      DistrictIdFrozen(db, rs[..n], w, d);
      ExecOneDistrict(Exec(db, rs[..n]), rs[n], w, d);
      assert PaidInto(rs, w, d) <==> PaidInto(rs[..n], w, d) || PaysInto(rs[n], w, d) by {
        forall i | 0 <= i < n ensures rs[..n][i] == rs[i] {}
        if PaidInto(rs[..n], w, d) {
          var i :| 0 <= i < n && PaysInto(rs[..n][i], w, d);
          assert PaysInto(rs[i], w, d);
        }
      }
    }
  }

  lemma {:induction false} AllApplyPrefix(db: Db, rs: seq<Req>, j: nat)
    requires AllApply(db, rs) && j <= |rs|
    ensures AllApply(db, rs[..j])
    ensures j < |rs| ==> Effect(rs[j], Exec(db, rs[..j])).Some?
    decreases |rs|
  {
    var n := |rs| - 1;
    if j == |rs| {
      assert rs[..j] == rs;
    } else {
      AllApplyPrefix(db, rs[..n], j);
      assert j < n ==> rs[..n][..j] == rs[..j] && rs[..n][j] == rs[j];
      assert j == n ==> rs[..n][..j] == rs[..j];
    }
  }

  /** Main result: orders of a district use the loaded id (3001) until the first payment into
      the district, and 0 from then on. */
  lemma IdsUsed(db: Db, rs: seq<Req>, j: nat)
    requires AllApply(db, rs) && j < |rs| && rs[j].OrderReq?
    ensures var p := rs[j].order;
      && OrderReady(p, Exec(db, rs[..j]))
      && HasDistrict(db, District(p.w, p.d))
      && IdAt(db, rs, j) == if PaidInto(rs[..j], p.w, p.d) then 0 else db[District(p.w, p.d)].dNextOid
  {
    AllApplyPrefix(db, rs, j);
    DistrictIdFrozen(db, rs[..j], rs[j].order.w, rs[j].order.d);
  }

  /** Order ids are not fresh: two orders of one district have different ids if and only if the
      loaded id is not 0 and the first payment into the district came between them. */
  lemma IdsReused(db: Db, rs: seq<Req>, i: nat, j: nat)
    requires AllApply(db, rs) && i < j < |rs|
    requires rs[i].OrderReq? && OrdersFrom(rs[j], rs[i].order.w, rs[i].order.d)
    ensures OrderReady(rs[i].order, Exec(db, rs[..i])) && OrderReady(rs[j].order, Exec(db, rs[..j]))
    ensures HasDistrict(db, District(rs[i].order.w, rs[i].order.d))
    ensures var w, d := rs[i].order.w, rs[i].order.d;
      IdAt(db, rs, i) != IdAt(db, rs, j)
      <==> db[District(w, d)].dNextOid != 0 && !PaidInto(rs[..i], w, d) && PaidInto(rs[..j], w, d)
  {
    IdsUsed(db, rs, i);
    IdsUsed(db, rs, j);
    var w, d := rs[i].order.w, rs[i].order.d;
    if PaidInto(rs[..i], w, d) {
      var x :| 0 <= x < i && PaysInto(rs[..i][x], w, d);
      assert rs[..j][x] == rs[..i][x];
    }
  }

  /* --- The counter key --- */

  predicate CounterStep(db: Db, db': Db, r: Req, w: u32, d: u32)
  {
    if OrdersFrom(r, w, d) then
      && OrderReady(r.order, db)
      && NextOid(w, d) in db' && db'[NextOid(w, d)] == CounterRow(I32(OrderId(r.order, db) + 1))
    else SameAt(db', db, NextOid(w, d))
  }

  lemma ExecOneCounter(db: Db, r: Req, w: u32, d: u32)
    requires Effect(r, db).Some?
    ensures CounterStep(db, ExecOne(db, r), r, w, d)
  {
    match r
    case OrderReq(p, now) =>
      if OrdersFrom(r, w, d) {
        OrderHeads(db, p, now);
      } else {
        OrderFrame(db, p, now, NextOid(w, d));
      }
    case PaymentReq(p, c, now) => PaymentFrame(db, p, c, now, NextOid(w, d));
  }

  /** The last order of a district, if any. */
  function LastOrderIn(rs: seq<Req>, w: u32, d: u32): (j: Option<nat>)
    ensures j.Some? ==> j.value < |rs| && OrdersFrom(rs[j.value], w, d)
  {
    if rs == [] then None
    else if OrdersFrom(rs[|rs| - 1], w, d) then Some(|rs| - 1)
    else LastOrderIn(rs[..|rs| - 1], w, d)
  }

  /** The counter is one more than the id of the last order in the list, or as it was. */
  ghost predicate CounterIs(db: Db, db': Db, rs: seq<Req>, w: u32, d: u32)
  {
    match LastOrderIn(rs, w, d)
    case None => SameAt(db', db, NextOid(w, d))
    case Some(j) =>
      && OrderReady(rs[j].order, Exec(db, rs[..j]))
      && NextOid(w, d) in db' && db'[NextOid(w, d)] == CounterRow(I32(IdAt(db, rs, j) + 1))
  }

  /** Main result: the counter key of a district holds one more than the id of the last order
      committed there, and its initial value before the first. */
  lemma {:induction false} CounterFollowsLastOrder(db: Db, rs: seq<Req>, w: u32, d: u32)
    requires AllApply(db, rs)
    ensures CounterIs(db, Exec(db, rs), rs, w, d)
  {
    if rs != [] {
      var n := |rs| - 1;
      CounterFollowsLastOrder(db, rs[..n], w, d);
      ExecOneCounter(Exec(db, rs[..n]), rs[n], w, d);
      if !OrdersFrom(rs[n], w, d) { CounterStays(db, Exec(db, rs[..n]), Exec(db, rs), rs, w, d); }
    }
  }

  lemma CounterStays(db: Db, mid: Db, end: Db, rs: seq<Req>, w: u32, d: u32)
    requires rs != [] && !OrdersFrom(rs[|rs| - 1], w, d)
    requires CounterIs(db, mid, rs[..|rs| - 1], w, d) && SameAt(end, mid, NextOid(w, d))
    ensures CounterIs(db, end, rs, w, d)
  {
    var j := LastOrderIn(rs[..|rs| - 1], w, d);
    assert LastOrderIn(rs, w, d) == j;
    if j.Some? { assert rs[..|rs| - 1][..j.value] == rs[..j.value]; }
  }
}
