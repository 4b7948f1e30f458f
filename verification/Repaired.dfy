/** The order numbering with line 73 of `tpcc_new_order.c` repaired: the order id is taken from
    the counter key that every order advances, instead of from the district row. */
module Repaired {
  import opened Words
  import opened Keyspace
  import opened Rows
  import opened Serial
  import opened Tables
  import opened Numbering
  import opened Engine
  import opened Serializability

  predicate HasCounter(db: Db, w: u32, d: u32)
  {
    NextOid(w, d) in db && db[NextOid(w, d)].CounterRow?
  }

  /** The counter value, decoded. */
  function CounterOf(db: Db, w: u32, d: u32): i32
    requires HasCounter(db, w, d)
  {
    db[NextOid(w, d)].nextOid
  }

  function RepairedEffect(r: Req, db: Db): Option<seq<Write>>
  {
    match r
    case OrderReq(p, now) =>
      if OrderReady(p, db) && HasCounter(db, p.w, p.d)
      then Some(OrderWrites(p, now, CounterOf(db, p.w, p.d), Quantities(p, db), Amounts(p)))
      else None
    case PaymentReq(p, c, now) => PaymentEffect(p, c, now, db)
  }

  function RepairedExec(db: Db, rs: seq<Req>): Db
  {
    if rs == [] then db
    else
      var mid := RepairedExec(db, rs[..|rs| - 1]);
      match RepairedEffect(rs[|rs| - 1], mid)
      case Some(ws) => Apply(mid, ws)
      case None => mid
  }

  predicate RepairedApplies(db: Db, rs: seq<Req>)
  {
    rs == [] ||
    (RepairedApplies(db, rs[..|rs| - 1]) && RepairedEffect(rs[|rs| - 1], RepairedExec(db, rs[..|rs| - 1])).Some?)
  }

  /** The number of orders in a district. */
  function OrdersIn(rs: seq<Req>, w: u32, d: u32): nat
  {
    if rs == [] then 0
    else OrdersIn(rs[..|rs| - 1], w, d) + (if OrdersFrom(rs[|rs| - 1], w, d) then 1 else 0)
  }

  /** Only the counter of the order's own district is written, once. */
  lemma CounterWritten(db: Db, ws: seq<Write>, p: OrderParams, oid: i32, w: u32, d: u32)
    requires |ws| == 3 + 2 * |p.lines| && ws[2 + |p.lines|] == CounterWrite(p, oid)
    requires forall j :: 0 <= j < |ws| ==> ws[j].key == KeyAt(p, oid, j)
    ensures if p.w == w && p.d == d
      then NextOid(w, d) in Apply(db, ws) && Apply(db, ws)[NextOid(w, d)] == CounterRow(I32(oid + 1))
      else SameAt(Apply(db, ws), db, NextOid(w, d))
  {
    if p.w == w && p.d == d {
      ApplyLast(db, ws, 2 + |p.lines|);
    } else {
      ApplyFrame(db, ws, NextOid(w, d));
    }
  }

  lemma RepairedStep(db: Db, r: Req, w: u32, d: u32)
    requires RepairedEffect(r, db).Some?
    ensures var db' := Apply(db, RepairedEffect(r, db).value);
      if OrdersFrom(r, w, d)
      then HasCounter(db, w, d) && HasCounter(db', w, d) && CounterOf(db', w, d) == I32(CounterOf(db, w, d) + 1)
      else SameAt(db', db, NextOid(w, d))
  {
    var ws := RepairedEffect(r, db).value;
    match r
    case PaymentReq(p, c, now) => ApplyFrame(db, ws, NextOid(w, d));
    case OrderReq(p, now) =>
      var oid := CounterOf(db, p.w, p.d);
      OrderWriteKeys(p, now, oid, Quantities(p, db), Amounts(p));
      CounterWritten(db, ws, p, oid, w, d);
  }

  lemma I32Sum(x: int, y: int)
    ensures I32(I32(x) + y) == I32(x + y)
  {
    var q := (x + 0x8000_0000) / 0x1_0000_0000;
    assert I32(x) + y == x + y - q * 0x1_0000_0000;
    ModShift(x + y + 0x8000_0000, -q, 0x1_0000_0000);
  }

  /** From `db` to `db'` the counter of the district advanced by `n`. */
  predicate Advanced(db: Db, db': Db, n: int, w: u32, d: u32)
    requires HasCounter(db, w, d)
  {
    HasCounter(db', w, d) && CounterOf(db', w, d) == I32(CounterOf(db, w, d) + n)
  }

  lemma AdvancedOnce(db: Db, mid: Db, end: Db, n: int, w: u32, d: u32)
    requires HasCounter(db, w, d) && Advanced(db, mid, n, w, d) && Advanced(mid, end, 1, w, d)
    ensures Advanced(db, end, n + 1, w, d)
  {
    I32Sum(CounterOf(db, w, d) + n, 1);
  }

  lemma AdvancedSame(db: Db, w: u32, d: u32)
    requires HasCounter(db, w, d)
    ensures Advanced(db, db, 0, w, d)
  {
  }

  /** Each order advances the counter of its district by one, and nothing else moves it. */
  lemma {:induction false} CounterCounts(db: Db, rs: seq<Req>, w: u32, d: u32)
    requires RepairedApplies(db, rs) && HasCounter(db, w, d)
    ensures Advanced(db, RepairedExec(db, rs), OrdersIn(rs, w, d), w, d)
  {
    if rs == [] {
      AdvancedSame(db, w, d);
    } else {
      var n := |rs| - 1;
      var mid := RepairedExec(db, rs[..n]);
      CounterCounts(db, rs[..n], w, d);
      RepairedStep(mid, rs[n], w, d);
      if OrdersFrom(rs[n], w, d) { AdvancedOnce(db, mid, RepairedExec(db, rs), OrdersIn(rs[..n], w, d), w, d); }
    }
  }

  lemma {:induction false} RepairedPrefix(db: Db, rs: seq<Req>, j: nat)
    requires RepairedApplies(db, rs) && j <= |rs|
    ensures RepairedApplies(db, rs[..j])
    ensures j < |rs| ==> RepairedEffect(rs[j], RepairedExec(db, rs[..j])).Some?
    decreases |rs|
  {
    var n := |rs| - 1;
    if j == |rs| {
      assert rs[..j] == rs;
    } else {
      RepairedPrefix(db, rs[..n], j);
      assert rs[..n][..j] == rs[..j];
      assert j < n ==> rs[..n][j] == rs[j];
    }
  }

  lemma {:induction false} OrdersBetween(rs: seq<Req>, i: nat, j: nat, w: u32, d: u32)
    requires i <= j <= |rs|
    ensures OrdersIn(rs[..i], w, d) <= OrdersIn(rs[..j], w, d) <= OrdersIn(rs[..i], w, d) + (j - i)
    ensures i < j && OrdersFrom(rs[i], w, d) ==> OrdersIn(rs[..i], w, d) < OrdersIn(rs[..j], w, d)
    decreases j
  {
    if i < j {
      OrdersBetween(rs, i, j - 1, w, d);
      assert rs[..j][..j - 1] == rs[..j - 1];
    }
  }

  /** The id of order `i` in closed form: the loaded counter plus the district's orders before it. */
  function RepairedId(db: Db, rs: seq<Req>, i: nat): i32
    requires i < |rs| && rs[i].OrderReq? && HasCounter(db, rs[i].order.w, rs[i].order.d)
  {
    I32(CounterOf(db, rs[i].order.w, rs[i].order.d) + OrdersIn(rs[..i], rs[i].order.w, rs[i].order.d))
  }

  /** That is the id order `i` takes from the counter. */
  lemma RepairedIdTaken(db: Db, rs: seq<Req>, i: nat)
    requires RepairedApplies(db, rs) && i < |rs| && rs[i].OrderReq?
    requires HasCounter(db, rs[i].order.w, rs[i].order.d)
    ensures var mid, p := RepairedExec(db, rs[..i]), rs[i].order;
      HasCounter(mid, p.w, p.d) && CounterOf(mid, p.w, p.d) == RepairedId(db, rs, i)
  {
    RepairedPrefix(db, rs, i);
    CounterCounts(db, rs[..i], rs[i].order.w, rs[i].order.d);
  }

  /** Requests `i` and `j` are orders of one district, whose counter is loaded. */
  predicate SameDistrict(db: Db, rs: seq<Req>, i: nat, j: nat)
  {
    && i < j < |rs| && rs[i].OrderReq? && OrdersFrom(rs[j], rs[i].order.w, rs[i].order.d)
    && HasCounter(db, rs[i].order.w, rs[i].order.d)
  }

  /** Main result: with the repair, two orders of one district share an order key if and only if the
      number of the district's orders from the first up to the second is a multiple of 2^32 - never
      while fewer than 2^32 requests lie between them - and the later one has the larger id as long
      as the counter has not wrapped. */
  lemma RepairedIdsFresh(db: Db, rs: seq<Req>, i: nat, j: nat)
    requires SameDistrict(db, rs, i, j)
    ensures var w, d := rs[i].order.w, rs[i].order.d;
      var m, n, a, b := OrdersIn(rs[..i], w, d), OrdersIn(rs[..j], w, d), RepairedId(db, rs, i), RepairedId(db, rs, j);
      && m < n
      && (U32(a) == U32(b) <==> (n - m) % 0x1_0000_0000 == 0)
      && (j - i < 0x1_0000_0000 ==> U32(a) != U32(b))
      && (CounterOf(db, w, d) + n < 0x8000_0000 ==> a < b)
  {
    var w, d := rs[i].order.w, rs[i].order.d;
    OrdersBetween(rs, i, j, w, d);
    SameWords(RepairedId(db, rs, i), RepairedId(db, rs, j),
              CounterOf(db, w, d), OrdersIn(rs[..i], w, d), OrdersIn(rs[..j], w, d));
  }

  lemma SameWords(a: i32, b: i32, start: i32, m: nat, n: nat)
    requires a == I32(start + m) && b == I32(start + n) && m < n
    ensures U32(a) == U32(b) <==> (n - m) % 0x1_0000_0000 == 0
    ensures n - m < 0x1_0000_0000 ==> U32(a) != U32(b)
    ensures start + n < 0x8000_0000 ==> a < b
  {
    WordOf(start + m);
    WordOf(start + n);
    SameRemainder(start + m, start + n);
    assert (start + n) - (start + m) == n - m;
  }

  lemma WordOf(x: int)
    ensures U32(I32(x)) == x % 0x1_0000_0000
    ensures -0x8000_0000 <= x < 0x8000_0000 ==> I32(x) == x
  {
    var a := (x + 0x8000_0000) / 0x1_0000_0000;
    assert I32(x) == x - a * 0x1_0000_0000;
    ModShift(x, -a, 0x1_0000_0000);
  }

  lemma SameRemainder(x: int, y: int)
    ensures x % 0x1_0000_0000 == y % 0x1_0000_0000 <==> (y - x) % 0x1_0000_0000 == 0
  {
    assert x == x / 0x1_0000_0000 * 0x1_0000_0000 + x % 0x1_0000_0000;
    assert y == y / 0x1_0000_0000 * 0x1_0000_0000 + y % 0x1_0000_0000;
  }

  /* --- Under optimistic concurrency --- */

  /** The repaired chain also reads the counter. */
  function RepairedReads(r: Req): set<Key>
  {
    if r.OrderReq? then Reads(r) + {NextOid(r.order.w, r.order.d)} else Reads(r)
  }

  lemma RepairedDependsOnReads(r: Req, a: Db, b: Db)
    requires forall k :: k in RepairedReads(r) ==> SameAt(a, b, k)
    ensures RepairedEffect(r, a) == RepairedEffect(r, b)
  {
    assert forall k :: k in Reads(r) ==> k in RepairedReads(r);
    EffectDependsOnReads(r, a, b);
    if r.OrderReq? {
      var p := r.order;
      assert SameAt(a, b, NextOid(p.w, p.d));
      ReadyDepends(p, a, b);
      if OrderReady(p, a) { assert Quantities(p, a) == Quantities(p, b); }
    }
  }

  lemma ReadyDepends(p: OrderParams, a: Db, b: Db)
    requires forall k :: k in OrderReads(p) ==> SameAt(a, b, k)
    ensures OrderReady(p, a) <==> OrderReady(p, b)
    ensures forall i :: 0 <= i < |p.lines| ==> SameAt(a, b, StockKeyOf(p.lines[i]))
  {
    assert SameAt(a, b, District(p.w, p.d)) && SameAt(a, b, Customer(p.w, p.d, p.c));
    forall i | 0 <= i < |p.lines| ensures SameAt(a, b, StockKeyOf(p.lines[i])) {
      assert StockKeyOf(p.lines[i]) in LineReads(p, |p.lines|);
    }
  }

  /** A log that the store admits: entry `j` is what its request does to the snapshot of some earlier
      version, and no commit since then wrote a row it read. */
  ghost predicate Admits(db: Db, log: seq<Entry>, versions: seq<nat>)
  {
    && |versions| == |log|
    && forall j :: 0 <= j < |log| ==> AdmitsAt(db, log, versions[j], j)
  }

  ghost predicate AdmitsAt(db: Db, log: seq<Entry>, v: nat, j: nat)
    requires j < |log|
  {
    && v <= j
    && RepairedEffect(log[j].req, DbAt(db, log, v)) == Some(log[j].writes)
    && forall a, k :: v <= a < j && k in RepairedReads(log[j].req) ==> !Mentions(log[a].writes, k)
  }

  lemma {:induction false} ReadsUnchanged(db: Db, log: seq<Entry>, v: nat, n: nat, k: Key)
    requires v <= n <= |log| && forall a :: v <= a < n ==> !Mentions(log[a].writes, k)
    ensures SameAt(DbAt(db, log, v), DbAt(db, log, n), k)
    decreases n
  {
    if v < n {
      ReadsUnchanged(db, log, v, n - 1, k);
      ApplyFrame(DbAt(db, log, n - 1), log[n - 1].writes, k);
    }
  }

  /** Such a log is serial: with the counter among the rows read, optimistic execution of any number
      of repaired transactions is their execution one by one in commit order. */
  lemma {:induction false} AdmittedIsSerial(db: Db, log: seq<Entry>, versions: seq<nat>, n: nat)
    requires Admits(db, log, versions) && n <= |log|
    ensures RepairedExec(db, Requests(log)[..n]) == DbAt(db, log, n)
    ensures RepairedApplies(db, Requests(log)[..n])
    decreases n
  {
    if n > 0 {
      var j := n - 1;
      AdmittedIsSerial(db, log, versions, j);
      assert AdmitsAt(db, log, versions[j], j);
      forall k | k in RepairedReads(log[j].req) ensures SameAt(DbAt(db, log, versions[j]), DbAt(db, log, j), k) {
        ReadsUnchanged(db, log, versions[j], j, k);
      }
      RepairedDependsOnReads(log[j].req, DbAt(db, log, versions[j]), DbAt(db, log, j));
      assert Requests(log)[..n][..j] == Requests(log)[..j];
    }
  }

  /** So in every such log an order is stored under the closed-form id, to which `RepairedIdsFresh`
      applies. */
  lemma AdmittedOrderIds(db: Db, log: seq<Entry>, versions: seq<nat>, i: nat)
    requires Admits(db, log, versions) && i < |log| && log[i].req.OrderReq?
    requires HasCounter(db, log[i].req.order.w, log[i].req.order.d)
    ensures var p := log[i].req.order;
      && log[i].writes != []
      && log[i].writes[0]
         == Write(Order(p.w, p.d, U32(RepairedId(db, Requests(log), i))), StoredOrder(p, log[i].req.now))
  {
    AdmittedIsSerial(db, log, versions, |log|);
    assert Requests(log)[..|log|] == Requests(log);
    RepairedIdTaken(db, Requests(log), i);
    AdmittedWrites(db, log, versions, i);
    FirstWrite(log[i].req, RepairedExec(db, Requests(log)[..i]));
  }

  function StoredOrder(p: OrderParams, now: i64): Row
  {
    OrderRow(p.c, -1, |p.lines|, if p.allLocal then 1 else 0, now)
  }

  lemma FirstWrite(r: Req, db: Db)
    requires r.OrderReq? && RepairedEffect(r, db).Some?
    ensures HasCounter(db, r.order.w, r.order.d) && RepairedEffect(r, db).value != []
    ensures RepairedEffect(r, db).value[0]
         == Write(Order(r.order.w, r.order.d, U32(CounterOf(db, r.order.w, r.order.d))), StoredOrder(r.order, r.now))
  {
  }

  lemma AdmittedWrites(db: Db, log: seq<Entry>, versions: seq<nat>, i: nat)
    requires Admits(db, log, versions) && i < |log|
    ensures RepairedEffect(log[i].req, RepairedExec(db, Requests(log)[..i])) == Some(log[i].writes)
  {
    AdmittedIsSerial(db, log, versions, i);
    assert AdmitsAt(db, log, versions[i], i);
    forall k | k in RepairedReads(log[i].req) ensures SameAt(DbAt(db, log, versions[i]), DbAt(db, log, i), k) {
      ReadsUnchanged(db, log, versions[i], i, k);
    }
    RepairedDependsOnReads(log[i].req, DbAt(db, log, versions[i]), DbAt(db, log, i));
  }
}
