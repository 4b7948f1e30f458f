/** Where the money goes: year-to-date totals and customer balances over serial executions. */
module Money {
  import opened Words
  import opened Keyspace
  import opened Serial
  import opened Tables
  import opened Sums

  /* --- Amounts credited to one row --- */

  /** Whether a request credits the row under `k`. */
  predicate Credits(r: Req, k: Key)
  {
    r.PaymentReq?
    && match k
       case Warehouse(w) => r.payment.w == w
       case District(w, d) => r.payment.cw == w && r.payment.cd == d
       case Customer(w, d, c) => r.payment.cw == w && r.payment.cd == d && r.customer == c
       case _ => false
  }

  function Credit(r: Req, k: Key): int
  {
    if Credits(r, k) then r.payment.amount else 0
  }

  /** The sum of the payments credited to row `k`. */
  function Paid(rs: seq<Req>, k: Key): int
  {
    if rs == [] then 0 else Paid(rs[..|rs| - 1], k) + Credit(rs[|rs| - 1], k)
  }

  function PaymentCount(rs: seq<Req>, k: Key): nat
  {
    if rs == [] then 0 else PaymentCount(rs[..|rs| - 1], k) + (if Credits(rs[|rs| - 1], k) then 1 else 0)
  }

  /* --- Rows that hold money --- */

  predicate MoneyKey(k: Key) { k.Warehouse? || k.District? || k.Customer? }

  predicate MoneyRow(db: Db, k: Key)
  {
    match k
    case Warehouse(_) => HasWarehouse(db, k)
    case District(_, _) => HasDistrict(db, k)
    case Customer(_, _, _) => HasCustomer(db, k)
    case _ => false
  }

  /** The year-to-date amount of a warehouse, district or customer row. */
  function Ytd(db: Db, k: Key): i64
    requires MoneyRow(db, k)
  {
    match db[k]
    case WarehouseRow(ytd) => ytd
    case DistrictRow(_, ytd, _) => ytd
    case CustomerRow(_, _, ytd, _) => ytd
  }

  predicate CreditStep(db: Db, db': Db, r: Req, k: Key)
    requires MoneyKey(k)
  {
    && (MoneyRow(db', k) <==> MoneyRow(db, k))
    && (Credits(r, k) ==> MoneyRow(db, k))
    && (MoneyRow(db, k) ==>
          && Ytd(db', k) == I64(Ytd(db, k) + Credit(r, k))
          && (k.Customer? ==>
                && db'[k].cBalance == I64(db[k].cBalance - Credit(r, k))
                && db'[k].cPaymentCnt == I16(db[k].cPaymentCnt + (if Credits(r, k) then 1 else 0))))
  }

  lemma SameIsNoCredit(db: Db, db': Db, r: Req, k: Key)
    requires MoneyKey(k) && SameAt(db', db, k) && !Credits(r, k)
    ensures CreditStep(db, db', r, k)
  {
    if MoneyRow(db, k) {
      InRange64(Ytd(db, k));
      if k.Customer? {
        InRange64(db[k].cBalance);
        InRange16(db[k].cPaymentCnt);
      }
    }
  }

  lemma PaymentCredits(db: Db, p: PaymentParams, c: u32, now: i64, k: Key)
    requires PaymentReady(p, c, db) && MoneyKey(k) && Credits(PaymentReq(p, c, now), k)
    ensures CreditStep(db, ExecOne(db, PaymentReq(p, c, now)), PaymentReq(p, c, now), k)
  {
    match k
    case Warehouse(_) => PaymentWarehouse(db, p, c, now);
    case District(_, _) => PaymentDistrict(db, p, c, now);
    case Customer(_, _, _) => PaymentCustomer(db, p, c, now);
  }

  lemma ExecOneCredits(db: Db, r: Req, k: Key)
    requires Effect(r, db).Some? && MoneyKey(k)
    ensures CreditStep(db, ExecOne(db, r), r, k)
  {
    match r
    case OrderReq(p, now) =>
      OrderFrame(db, p, now, k);
      SameIsNoCredit(db, ExecOne(db, r), r, k);
    case PaymentReq(p, c, now) =>
      if Credits(r, k) {
        PaymentCredits(db, p, c, now, k);
      } else {
        PaymentFrame(db, p, c, now, k);
        SameIsNoCredit(db, ExecOne(db, r), r, k);
      }
  }

  ghost predicate Credited(db: Db, db': Db, rs: seq<Req>, k: Key)
    requires MoneyKey(k)
  {
    && (MoneyRow(db', k) <==> MoneyRow(db, k))
    && (MoneyRow(db, k) ==>
          && Ytd(db', k) == I64(Ytd(db, k) + Paid(rs, k))
          && (k.Customer? ==>
                && db'[k].cBalance == I64(db[k].cBalance - Paid(rs, k))
                && db'[k].cPaymentCnt == I16(db[k].cPaymentCnt + PaymentCount(rs, k))))
  }

  lemma PaidAppend(rs: seq<Req>, r: Req, k: Key)
    ensures Paid(rs + [r], k) == Paid(rs, k) + Credit(r, k)
    ensures PaymentCount(rs + [r], k) == PaymentCount(rs, k) + (if Credits(r, k) then 1 else 0)
  {
    assert (rs + [r])[..|rs|] == rs;
  }

  lemma YtdComposes(db: Db, mid: Db, end: Db, rs: seq<Req>, r: Req, k: Key)
    requires MoneyKey(k) && MoneyRow(db, k) && Credited(db, mid, rs, k) && CreditStep(mid, end, r, k)
    ensures Ytd(end, k) == I64(Ytd(db, k) + (Paid(rs, k) + Credit(r, k)))
  {
    Compose64(Ytd(db, k), Paid(rs, k), Credit(r, k), Ytd(mid, k), Ytd(end, k));
  }

  lemma BalanceComposes(db: Db, mid: Db, end: Db, rs: seq<Req>, r: Req, k: Key)
    requires k.Customer? && MoneyRow(db, k) && Credited(db, mid, rs, k) && CreditStep(mid, end, r, k)
    ensures end[k].cBalance == I64(db[k].cBalance - (Paid(rs, k) + Credit(r, k)))
  {
    Compose64(db[k].cBalance, -Paid(rs, k), -Credit(r, k), mid[k].cBalance, end[k].cBalance);
  }

  lemma CountComposes(db: Db, mid: Db, end: Db, rs: seq<Req>, r: Req, k: Key)
    requires k.Customer? && MoneyRow(db, k) && Credited(db, mid, rs, k) && CreditStep(mid, end, r, k)
    ensures end[k].cPaymentCnt
         == I16(db[k].cPaymentCnt + (PaymentCount(rs, k) + (if Credits(r, k) then 1 else 0)))
  {
    I16Sum(db[k].cPaymentCnt + PaymentCount(rs, k), if Credits(r, k) then 1 else 0);
  }

  lemma CreditsCompose(db: Db, mid: Db, end: Db, rs: seq<Req>, r: Req, k: Key)
    requires MoneyKey(k) && Credited(db, mid, rs, k) && CreditStep(mid, end, r, k)
    ensures Credited(db, end, rs + [r], k)
  {
    PaidAppend(rs, r, k);
    if MoneyRow(db, k) {
      YtdComposes(db, mid, end, rs, r, k);
      if k.Customer? {
        BalanceComposes(db, mid, end, rs, r, k);
        CountComposes(db, mid, end, rs, r, k);
      }
    }
  }

  lemma Compose64(start: int, sofar: int, more: int, mid: int, end: int)
    requires mid == I64(start + sofar) && end == I64(mid + more)
    ensures end == I64(start + (sofar + more))
  {
    I64Sum(start + sofar, more);
  }

  /** Main result, row by row: every year-to-date amount is its initial value plus the payments
      credited to the row, and a customer's balance falls by as much, in 64-bit arithmetic. */
  lemma {:induction false} MoneyRows(db: Db, rs: seq<Req>, k: Key)
    requires AllApply(db, rs) && MoneyKey(k)
    ensures Credited(db, Exec(db, rs), rs, k)
  {
    if rs == [] {
      SameIsNoCredit(db, db, OrderReq(OrderParams(0, 0, 0, [], true), 0), k);
    } else {
      var n := |rs| - 1;
      MoneyRows(db, rs[..n], k);
      ExecOneCredits(Exec(db, rs[..n]), rs[n], k);
      CreditsCompose(db, Exec(db, rs[..n]), Exec(db, rs), rs[..n], rs[n], k);
      assert rs[..n] + [rs[n]] == rs;
    }
  }

  /** A customer's balance and year-to-date payment always add up to the same, modulo 2^64. */
  lemma BalancePlusPaid(db: Db, db': Db, rs: seq<Req>, k: Key)
    requires k.Customer? && MoneyRow(db, k) && Credited(db, db', rs, k)
    ensures I64(db'[k].cBalance + db'[k].cYtdPayment) == I64(db[k].cBalance + db[k].cYtdPayment)
  {
    CancelPaid(db[k].cBalance, db[k].cYtdPayment, Paid(rs, k));
  }

  lemma CancelPaid(b: int, y: int, paid: int)
    ensures I64(I64(b - paid) + I64(y + paid)) == I64(b + y)
  {
    I64Sum(b - paid, I64(y + paid));
    I64Sum(y + paid, b - paid);
  }

  /* --- Whole tables --- */

  datatype Table = WarehouseTable | DistrictTable | CustomerTable

  predicate InTable(k: Key, t: Table)
  {
    match t
    case WarehouseTable => k.Warehouse?
    case DistrictTable => k.District?
    case CustomerTable => k.Customer?
  }

  function CreditedKey(r: Req, t: Table): Key
    requires r.PaymentReq?
  {
    match t
    case WarehouseTable => Warehouse(r.payment.w)
    case DistrictTable => District(r.payment.cw, r.payment.cd)
    case CustomerTable => Customer(r.payment.cw, r.payment.cd, r.customer)
  }

  function TableRows(db: Db, t: Table): set<Key>
  {
    set k | k in db && InTable(k, t) && MoneyRow(db, k)
  }

  function YtdOf(db: Db): Key -> int { k => if MoneyRow(db, k) then Ytd(db, k) as int else 0 }

  function BalanceOf(db: Db): Key -> int { k => if HasCustomer(db, k) then db[k].cBalance as int else 0 }

  function PaidTo(rs: seq<Req>): Key -> int { k => Paid(rs, k) }

  /** The sum of all payments. */
  function TotalPaid(rs: seq<Req>): int
  {
    if rs == [] then 0
    else TotalPaid(rs[..|rs| - 1]) + (if rs[|rs| - 1].PaymentReq? then rs[|rs| - 1].payment.amount else 0)
  }

  predicate NoRefunds(rs: seq<Req>)
  {
    forall i :: 0 <= i < |rs| && rs[i].PaymentReq? ==> rs[i].payment.amount >= 0
  }

  lemma {:induction false} PaidNonNegative(rs: seq<Req>, k: Key)
    requires NoRefunds(rs)
    ensures Paid(rs, k) >= 0
  {
    if rs != [] { PaidNonNegative(rs[..|rs| - 1], k); }
  }

  /** `db'` is `db` after crediting the payments in `rs`, each of which found its rows. */
  ghost predicate Settled(db: Db, db': Db, rs: seq<Req>)
  {
    && (forall k :: MoneyKey(k) ==> Credited(db, db', rs, k))
    && (forall i :: 0 <= i < |rs| && rs[i].PaymentReq? ==> Payable(db, rs[i]))
  }

  predicate Payable(db: Db, r: Req)
    requires r.PaymentReq?
  {
    forall t :: MoneyRow(db, CreditedKey(r, t))
  }

  lemma {:induction false} PaymentsPayable(db: Db, rs: seq<Req>, i: nat)
    requires AllApply(db, rs) && i < |rs| && rs[i].PaymentReq?
    ensures Payable(db, rs[i])
  {
    var n := |rs| - 1;
    if i < n {
      PaymentsPayable(db, rs[..n], i);
    } else {
      forall t ensures MoneyRow(db, CreditedKey(rs[n], t)) {
        MoneyRows(db, rs[..n], CreditedKey(rs[n], t));
        ExecOneCredits(Exec(db, rs[..n]), rs[n], CreditedKey(rs[n], t));
      }
    }
  }

  /** Serial execution settles every payment. */
  lemma ExecSettles(db: Db, rs: seq<Req>)
    requires AllApply(db, rs)
    ensures Settled(db, Exec(db, rs), rs)
  {
    forall k | MoneyKey(k) ensures Credited(db, Exec(db, rs), rs, k) { MoneyRows(db, rs, k); }
    forall i | 0 <= i < |rs| && rs[i].PaymentReq? ensures Payable(db, rs[i]) { PaymentsPayable(db, rs, i); }
  }

  /** Every payment credits exactly one row of each of the three tables. */
  lemma {:induction false} PaymentsReachTable(db: Db, rs: seq<Req>, t: Table)
    requires forall i :: 0 <= i < |rs| && rs[i].PaymentReq? ==> Payable(db, rs[i])
    ensures Sum(TableRows(db, t), PaidTo(rs)) == TotalPaid(rs)
  {
    var ks := TableRows(db, t);
    if rs == [] {
      SumSame(ks, PaidTo(rs), _ => 0);
      SumZero(ks);
    } else {
      var n := |rs| - 1;
      PaymentsReachTable(db, rs[..n], t);
      if rs[n].PaymentReq? {
        assert Payable(db, rs[n]);
        SumBump(ks, PaidTo(rs[..n]), PaidTo(rs), CreditedKey(rs[n], t));
      } else {
        SumSame(ks, PaidTo(rs[..n]), PaidTo(rs));
      }
    }
  }

  lemma {:induction false} SumZero(ks: set<Key>)
    ensures Sum(ks, (_: Key) => 0) == 0
  {
    if ks != {} {
      var x :| x in ks;
      SumPick(ks, (_: Key) => 0, x);
      SumZero(ks - {x});
    }
  }

  const MAX64 := 0x7FFF_FFFF_FFFF_FFFF
  const MIN64 := -0x8000_0000_0000_0000

  lemma WrapDirection(x: int)
    ensures x >= MIN64 ==> I64(x) <= x && (I64(x) == x <==> x <= MAX64)
    ensures x <= MAX64 ==> I64(x) >= x && (I64(x) == x <==> x >= MIN64)
  {
    var q := (x + 0x8000_0000_0000_0000) / TWO64;
    assert I64(x) == x - q * TWO64;
    if x < MIN64 { assert q <= -1; }
    if x > MAX64 { assert q >= 1; }
  }

  /** Adding without loss: the sum grows by the sum of the additions iff no term wraps. */
  lemma WrappedRise(ks: set<Key>, before: Key -> int, delta: Key -> int, after: Key -> int)
    requires forall k :: k in ks ==> before(k) >= MIN64 && delta(k) >= 0 && after(k) == I64(before(k) + delta(k))
    ensures Sum(ks, after) <= Sum(ks, before) + Sum(ks, delta)
    ensures Sum(ks, after) == Sum(ks, before) + Sum(ks, delta)
       <==> forall k :: k in ks ==> before(k) + delta(k) <= MAX64
  {
    var target: Key -> int := k => before(k) + delta(k);
    SumAdd(ks, before, delta, target);
    forall k | k in ks
      ensures after(k) <= target(k) && (after(k) == target(k) <==> before(k) + delta(k) <= MAX64)
    {
      WrapDirection(target(k));
    }
    SumAtMost(ks, after, target);
  }

  lemma WrappedFall(ks: set<Key>, before: Key -> int, delta: Key -> int, after: Key -> int)
    requires forall k :: k in ks ==> before(k) <= MAX64 && delta(k) >= 0 && after(k) == I64(before(k) - delta(k))
    ensures Sum(ks, after) == Sum(ks, before) - Sum(ks, delta)
       <==> forall k :: k in ks ==> before(k) - delta(k) >= MIN64
  {
    var target: Key -> int := k => before(k) - delta(k);
    SumAdd(ks, target, delta, before);
    forall k | k in ks
      ensures target(k) <= after(k) && (after(k) == target(k) <==> before(k) - delta(k) >= MIN64)
    {
      WrapDirection(target(k));
    }
    SumAtMost(ks, target, after);
  }

  lemma RowAfter(db: Db, db': Db, rs: seq<Req>, k: Key)
    requires MoneyRow(db, k) && Credited(db, db', rs, k) && NoRefunds(rs)
    ensures YtdOf(db')(k) == I64(YtdOf(db)(k) + PaidTo(rs)(k)) && PaidTo(rs)(k) >= 0
    ensures k.Customer? ==> BalanceOf(db')(k) == I64(BalanceOf(db)(k) - PaidTo(rs)(k))
  {
    PaidNonNegative(rs, k);
  }

  lemma WarehouseRises(db: Db, db': Db, rs: seq<Req>, w: u32)
    requires Credited(db, db', rs, Warehouse(w)) && NoRefunds(rs)
    requires HasWarehouse(db, Warehouse(w)) && db[Warehouse(w)].wYtd + Paid(rs, Warehouse(w)) <= MAX64
    ensures HasWarehouse(db', Warehouse(w))
    ensures db'[Warehouse(w)].wYtd == db[Warehouse(w)].wYtd + Paid(rs, Warehouse(w))
  {
    PaidNonNegative(rs, Warehouse(w));
    WrapDirection(db[Warehouse(w)].wYtd + Paid(rs, Warehouse(w)));
  }

  /** Main result for totals: each year-to-date total rises by exactly the sum of all payments
      if and only if no row outgrows 64 bits; wrap-around can only lose money. */
  lemma TotalsRise(db: Db, db': Db, rs: seq<Req>, t: Table)
    requires Settled(db, db', rs) && NoRefunds(rs)
    ensures var ks := TableRows(db, t);
      && TableRows(db', t) == ks
      && Sum(ks, YtdOf(db')) <= Sum(ks, YtdOf(db)) + TotalPaid(rs)
      && (Sum(ks, YtdOf(db')) == Sum(ks, YtdOf(db)) + TotalPaid(rs)
          <==> forall k :: k in ks ==> YtdOf(db)(k) + PaidTo(rs)(k) <= MAX64)
  {
    var ks := TableRows(db, t);
    assert TableRows(db', t) == ks by {
      forall k | MoneyKey(k) ensures k in TableRows(db', t) <==> k in ks { assert Credited(db, db', rs, k); }
    }
    PaymentsReachTable(db, rs, t);
    forall k | k in ks
      ensures PaidTo(rs)(k) >= 0 && YtdOf(db')(k) == I64(YtdOf(db)(k) + PaidTo(rs)(k))
    {
      RowAfter(db, db', rs, k);
    }
    WrappedRise(ks, YtdOf(db), PaidTo(rs), YtdOf(db'));
  }

  /** The total of all balances falls by exactly the sum of all payments if and only if no
      balance falls below 64 bits. */
  lemma BalancesFall(db: Db, db': Db, rs: seq<Req>)
    requires Settled(db, db', rs) && NoRefunds(rs)
    ensures var ks := TableRows(db, CustomerTable);
      Sum(ks, BalanceOf(db')) == Sum(ks, BalanceOf(db)) - TotalPaid(rs)
      <==> forall k :: k in ks ==> BalanceOf(db)(k) - PaidTo(rs)(k) >= MIN64
  {
    var ks := TableRows(db, CustomerTable);
    PaymentsReachTable(db, rs, CustomerTable);
    forall k | k in ks
      ensures PaidTo(rs)(k) >= 0 && BalanceOf(db')(k) == I64(BalanceOf(db)(k) - PaidTo(rs)(k))
    {
      RowAfter(db, db', rs, k);
    }
    WrappedFall(ks, BalanceOf(db), PaidTo(rs), BalanceOf(db'));
  }

  /* --- W_YTD against the sum of D_YTD (section 3.3.2.1 of TPC-C v5.11) --- */

  function DistrictsOf(db: Db, w: u32): set<Key>
  {
    set k | k in db && k.District? && k.w == w && MoneyRow(db, k)
  }

  /** The sum of the payments by customers of warehouse `w`. */
  function PaidByCustomersOf(rs: seq<Req>, w: u32): int
  {
    if rs == [] then 0
    else
      var r := rs[|rs| - 1];
      PaidByCustomersOf(rs[..|rs| - 1], w) + (if r.PaymentReq? && r.payment.cw == w then r.payment.amount else 0)
  }

  lemma {:induction false} CustomersPayDistricts(db: Db, rs: seq<Req>, w: u32)
    requires forall i :: 0 <= i < |rs| && rs[i].PaymentReq? ==> Payable(db, rs[i])
    ensures Sum(DistrictsOf(db, w), PaidTo(rs)) == PaidByCustomersOf(rs, w)
  {
    var ks := DistrictsOf(db, w);
    if rs == [] {
      SumSame(ks, PaidTo(rs), _ => 0);
      SumZero(ks);
    } else {
      var n := |rs| - 1;
      var r := rs[n];
      CustomersPayDistricts(db, rs[..n], w);
      if r.PaymentReq? && r.payment.cw == w {
        assert Payable(db, r) && MoneyRow(db, CreditedKey(r, DistrictTable));
        SumBump(ks, PaidTo(rs[..n]), PaidTo(rs), District(r.payment.cw, r.payment.cd));
      } else {
        SumSame(ks, PaidTo(rs[..n]), PaidTo(rs));
      }
    }
  }

  /** How far the warehouse total is ahead of its districts. */
  ghost function Imbalance(db: Db, w: u32): int
    requires HasWarehouse(db, Warehouse(w))
  {
    db[Warehouse(w)].wYtd - Sum(DistrictsOf(db, w), YtdOf(db))
  }

  /** Main result: while nothing wraps, the imbalance of a warehouse moves by what was paid at
      the warehouse minus what its own customers paid. So `W_YTD = sum(D_YTD)` is kept if and
      only if these are equal, as they are when every payment is local. */
  lemma ImbalanceMoves(db: Db, db': Db, rs: seq<Req>, w: u32)
    requires Settled(db, db', rs) && NoRefunds(rs) && HasWarehouse(db, Warehouse(w))
    requires db[Warehouse(w)].wYtd + Paid(rs, Warehouse(w)) <= MAX64
    requires forall k :: k in DistrictsOf(db, w) ==> YtdOf(db)(k) + PaidTo(rs)(k) <= MAX64
    ensures HasWarehouse(db', Warehouse(w))
    ensures Imbalance(db', w) == Imbalance(db, w) + Paid(rs, Warehouse(w)) - PaidByCustomersOf(rs, w)
  {
    var ks := DistrictsOf(db, w);
    assert Credited(db, db', rs, Warehouse(w));
    WarehouseRises(db, db', rs, w);
    assert DistrictsOf(db', w) == ks by {
      forall k: Key | MoneyKey(k) ensures k in DistrictsOf(db', w) <==> k in ks { assert Credited(db, db', rs, k); }
    }
    CustomersPayDistricts(db, rs, w);
    forall k | k in ks
      ensures PaidTo(rs)(k) >= 0 && YtdOf(db')(k) == I64(YtdOf(db)(k) + PaidTo(rs)(k))
    {
      RowAfter(db, db', rs, k);
    }
    WrappedRise(ks, YtdOf(db), PaidTo(rs), YtdOf(db'));
  }

  /** Local payments are paid at the customer's own warehouse. */
  lemma {:induction false} LocalPayments(rs: seq<Req>, w: u32)
    requires forall i :: 0 <= i < |rs| && rs[i].PaymentReq? ==> rs[i].payment.cw == rs[i].payment.w
    ensures Paid(rs, Warehouse(w)) == PaidByCustomersOf(rs, w)
  {
    if rs != [] {
      LocalPayments(rs[..|rs| - 1], w);
      var r := rs[|rs| - 1];
      assert r.PaymentReq? ==> r.payment.cw == r.payment.w;
    }
  }
}
