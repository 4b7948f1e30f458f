/** Stock quantities and stock counters over serial executions. */
module Inventory {
  import opened Words
  import opened Keyspace
  import opened Rows
  import opened Serial
  import opened Tables

  /** The quantity on the last of `ls` that names stock row `k`. */
  function LastTaken(ls: seq<Line>, k: Key): Option<byte>
  {
    if ls == [] then None
    else
      var n := |ls| - 1;
      if StockKeyOf(ls[n]) == k then Some(ls[n].quantity) else LastTaken(ls[..n], k)
  }

  function TakenBy(r: Req, k: Key): Option<byte>
  {
    if r.OrderReq? then LastTaken(r.order.lines, k) else None
  }

  /** The sum over all orders of the quantity on the last line naming `k`. */
  function Taken(rs: seq<Req>, k: Key): nat
  {
    if rs == [] then 0
    else
      var t := TakenBy(rs[|rs| - 1], k);
      Taken(rs[..|rs| - 1], k) + (if t.Some? then t.value else 0)
  }

  /** The quantity taken by the last order that names `k`. */
  function LatestTaken(rs: seq<Req>, k: Key): Option<byte>
  {
    if rs == [] then None
    else
      var t := TakenBy(rs[|rs| - 1], k);
      if t.Some? then t else LatestTaken(rs[..|rs| - 1], k)
  }

  lemma {:induction false} LastTakenNone(ls: Lines, k: Key)
    ensures LastTaken(ls, k).None? <==> forall i :: 0 <= i < |ls| ==> StockKeyOf(ls[i]) != k
  {
    if ls != [] {
      var n := |ls| - 1;
      LastTakenNone(ls[..n], k);
      assert forall i :: 0 <= i < n ==> ls[..n][i] == ls[i];
    }
  }

  /** The position of that line. */
  lemma {:induction false} LastTakenLine(ls: Lines, k: Key) returns (i: nat)
    requires LastTaken(ls, k).Some?
    ensures i < |ls| && StockKeyOf(ls[i]) == k && LastTaken(ls, k) == Some(ls[i].quantity)
    ensures forall j :: i < j < |ls| ==> StockKeyOf(ls[j]) != k
  {
    var n := |ls| - 1;
    if StockKeyOf(ls[n]) == k {
      i := n;
    } else {
      i := LastTakenLine(ls[..n], k);
      assert forall j :: 0 <= j < n ==> ls[..n][j] == ls[j];
    }
  }

  /** What one request does to stock row `k`. */
  predicate StockStep(db: Db, db': Db, r: Req, k: Key)
  {
    match TakenBy(r, k)
    case None => SameAt(db', db, k)
    case Some(n) =>
      && HasStock(db, k)
      && k in db' && db'[k] == StockRow(NewQuantity(db[k].sQuantity, n), n, 1)
  }

  lemma ExecOneStock(db: Db, r: Req, k: Key)
    requires Effect(r, db).Some? && k.Stock?
    ensures StockStep(db, ExecOne(db, r), r, k)
  {
    match r
    case PaymentReq(p, c, now) => PaymentFrame(db, p, c, now, k);
    case OrderReq(p, now) =>
      if LastTaken(p.lines, k).None? {
        LastTakenNone(p.lines, k);
        assert !Names(p, k);
        OrderFrame(db, p, now, k);
      } else {
        var i := LastTakenLine(p.lines, k);
        OrderStock(db, p, now, i);
      }
  }

  /* --- Quantities --- */

  predicate InRange(q: int) { 10 <= q <= 100 }

  /** Within range, taking `n` moves around a circle of 91 quantities. */
  lemma QuantityOnCircle(q: i32, n: byte)
    requires InRange(q) && n <= 91
    ensures NewQuantity(q, n) == 10 + (q - 10 - n) % 91
    ensures InRange(NewQuantity(q, n))
  {
    assert I32(q - n) == q - n;
  }

  /** The range is kept for every stock level exactly when at most 91 are taken at once. */
  lemma RangeKept(n: byte)
    ensures (forall q: i32 :: InRange(q) ==> InRange(NewQuantity(q, n))) <==> n <= 91
  {
    if n <= 91 {
      forall q: i32 | InRange(q) ensures InRange(NewQuantity(q, n)) { QuantityOnCircle(q, n); }
    } else {
      assert I32(10 - n) == 10 - n;
      assert InRange(10) && !InRange(NewQuantity(10, n));
    }
  }

  predicate Modest(rs: seq<Req>)
  {
    forall i :: 0 <= i < |rs| && rs[i].OrderReq? ==>
      forall j :: 0 <= j < |rs[i].order.lines| ==> rs[i].order.lines[j].quantity <= 91
  }

  ghost predicate Drawn(db: Db, db': Db, rs: seq<Req>, k: Key)
  {
    && HasStock(db, k) && HasStock(db', k)
    && InRange(db'[k].sQuantity)
    && db'[k].sQuantity == 10 + (db[k].sQuantity - 10 - Taken(rs, k)) % 91
  }

  lemma DrawnCompose(db: Db, mid: Db, end: Db, rs: seq<Req>, r: Req, k: Key)
    requires Drawn(db, mid, rs, k) && StockStep(mid, end, r, k)
    requires TakenBy(r, k).Some? ==> TakenBy(r, k).value <= 91
    ensures Drawn(db, end, rs + [r], k)
  {
    assert (rs + [r])[..|rs|] == rs;
    if TakenBy(r, k).Some? {
      var n, x := TakenBy(r, k).value, db[k].sQuantity - 10 - Taken(rs, k);
      QuantityOnCircle(mid[k].sQuantity, n);
      ModShift(x - n, -(x / 91), 91);
      assert x % 91 - n == x - n + (-(x / 91)) * 91;
    }
  }

  lemma TakenIsModest(rs: seq<Req>, k: Key)
    requires Modest(rs) && rs != []
    ensures TakenBy(rs[|rs| - 1], k).Some? ==> TakenBy(rs[|rs| - 1], k).value <= 91
  {
    var r := rs[|rs| - 1];
    if TakenBy(r, k).Some? { var _ := LastTakenLine(r.order.lines, k); }
  }

  /** Main result: quantities that start in [10, 100] stay there, and the final quantity is
      determined by the sum of what each order took on its last line naming the row. */
  lemma {:induction false} StockQuantity(db: Db, rs: seq<Req>, k: Key)
    requires AllApply(db, rs) && Modest(rs)
    requires k.Stock? && HasStock(db, k) && InRange(db[k].sQuantity)
    ensures Drawn(db, Exec(db, rs), rs, k)
  {
    if rs != [] {
      var n := |rs| - 1;
      StockQuantity(db, rs[..n], k);
      ExecOneStock(Exec(db, rs[..n]), rs[n], k);
      TakenIsModest(rs, k);
      DrawnCompose(db, Exec(db, rs[..n]), Exec(db, rs), rs[..n], rs[n], k);
      assert rs[..n] + [rs[n]] == rs;
    }
  }

  /* --- Counters --- */

  /** The source means to count orders and add up quantities, but every order overwrites both:
      after any order naming the row the order count is 1 and the total is that order's quantity. */
  lemma {:induction false} CountersOverwritten(db: Db, rs: seq<Req>, k: Key)
    requires AllApply(db, rs) && k.Stock?
    ensures match LatestTaken(rs, k)
      case None => SameAt(Exec(db, rs), db, k)
      case Some(n) => HasStock(Exec(db, rs), k) && Exec(db, rs)[k].sOrderCnt == 1 && Exec(db, rs)[k].sYtd == n
  {
    if rs != [] {
      var n := |rs| - 1;
      CountersOverwritten(db, rs[..n], k);
      ExecOneStock(Exec(db, rs[..n]), rs[n], k);
    }
  }

  /** The number of orders naming `k`. */
  function Naming(rs: seq<Req>, k: Key): nat
  {
    if rs == [] then 0 else Naming(rs[..|rs| - 1], k) + (if TakenBy(rs[|rs| - 1], k).Some? then 1 else 0)
  }

  lemma {:induction false} NamingLatest(rs: seq<Req>, k: Key)
    ensures Naming(rs, k) == 0 <==> LatestTaken(rs, k).None?
  {
    if rs != [] { NamingLatest(rs[..|rs| - 1], k); }
  }

  /** So the order count is right exactly when no order names the row, or the one that does
      finds a count of zero. */
  lemma OrderCountRight(db: Db, rs: seq<Req>, k: Key)
    requires AllApply(db, rs) && k.Stock? && HasStock(db, k)
    ensures HasStock(Exec(db, rs), k)
    ensures Exec(db, rs)[k].sOrderCnt == db[k].sOrderCnt + Naming(rs, k)
       <==> Naming(rs, k) == 0 || db[k].sOrderCnt + Naming(rs, k) == 1
  {
    CountersOverwritten(db, rs, k);
    NamingLatest(rs, k);
  }

  /** The sum of what orders naming `k` took before the last of them. */
  function EarlierTaken(rs: seq<Req>, k: Key): (t: nat)
    ensures t == Taken(rs, k) - (if LatestTaken(rs, k).Some? then LatestTaken(rs, k).value else 0)
  {
    if rs == [] then 0
    else if TakenBy(rs[|rs| - 1], k).Some? then Taken(rs[..|rs| - 1], k)
    else EarlierTaken(rs[..|rs| - 1], k)
  }

  predicate PositiveLines(rs: seq<Req>)
  {
    forall i :: 0 <= i < |rs| && rs[i].OrderReq? ==>
      forall j :: 0 <= j < |rs[i].order.lines| ==> rs[i].order.lines[j].quantity > 0
  }

  /** With positive quantities, at least as much is taken as there are orders naming the row. */
  lemma {:induction false} TakenAtLeast(rs: seq<Req>, k: Key)
    requires PositiveLines(rs)
    ensures Taken(rs, k) >= Naming(rs, k)
  {
    if rs != [] {
      TakenAtLeast(rs[..|rs| - 1], k);
      var r := rs[|rs| - 1];
      if TakenBy(r, k).Some? { var _ := LastTakenLine(r.order.lines, k); }
    }
  }

  lemma {:induction false} EarlierNaming(rs: seq<Req>, k: Key)
    requires PositiveLines(rs)
    ensures EarlierTaken(rs, k) == 0 <==> Naming(rs, k) <= 1
  {
    if rs != [] {
      var before := rs[..|rs| - 1];
      if TakenBy(rs[|rs| - 1], k).Some? {
        TakenAtLeast(before, k);
        NamingLatest(before, k);
        NothingTaken(before, k);
      } else {
        EarlierNaming(before, k);
      }
    }
  }

  lemma {:induction false} NothingTaken(rs: seq<Req>, k: Key)
    ensures Naming(rs, k) == 0 ==> Taken(rs, k) == 0
  {
    if rs != [] { NothingTaken(rs[..|rs| - 1], k); }
  }

  /** The year-to-date figure is right exactly when no order names the row, or the initial figure
      and what all orders but the last took cancel out; with positive quantities and a figure that
      is not negative, exactly when no order names the row, or one does and finds zero. */
  lemma YtdRight(db: Db, rs: seq<Req>, k: Key)
    requires AllApply(db, rs) && k.Stock? && HasStock(db, k)
    ensures HasStock(Exec(db, rs), k)
    ensures Exec(db, rs)[k].sYtd == db[k].sYtd + Taken(rs, k)
       <==> Naming(rs, k) == 0 || db[k].sYtd + EarlierTaken(rs, k) == 0
    ensures PositiveLines(rs) && db[k].sYtd >= 0 ==>
      (Exec(db, rs)[k].sYtd == db[k].sYtd + Taken(rs, k)
       <==> Naming(rs, k) == 0 || (Naming(rs, k) == 1 && db[k].sYtd == 0))
  {
    CountersOverwritten(db, rs, k);
    NamingLatest(rs, k);
    NothingTaken(rs, k);
    if PositiveLines(rs) { EarlierNaming(rs, k); }
  }
}
