/** Row values: the packed C structs of `tpcc_kv.h`. A handler reads a field by casting the
    stored bytes, and writes a row as a zeroed struct with some fields set. `View` is what a
    handler can see of the bytes under a key; `EncodeRow` are the bytes it writes. Integers are
    in host (little-endian) order, as the handlers store them. */
module Rows {
  import opened Words
  import opened Keyspace

  /** The fields of a row that some handler reads or writes. */
  datatype Row =
    | WarehouseRow(wYtd: i64)
    | DistrictRow(dTax: i32, dYtd: i64, dNextOid: i32)
    | CustomerRow(cDiscount: i32, cBalance: i64, cYtdPayment: i64, cPaymentCnt: i16)
    | HistoryRow(hDate: i64, hAmount: i32)
    | StockRow(sQuantity: i32, sYtd: i32, sOrderCnt: i32)
    | OrderRow(oCustomer: u32, oCarrier: i32, oLineCnt: i16, oAllLocal: i16, oEntry: i64)
    | OrderLineRow(olItem: u32, olSupply: u32, olQuantity: i16, olAmount: i32)
    | CounterRow(nextOid: i32)
    /** A value without fields, or too short for the struct of its table. */
    | Blob(bytes: Bytes)

  const SIZEOF_WAREHOUSE := 93
  const SIZEOF_DISTRICT := 97
  const SIZEOF_CUSTOMER := 663
  const SIZEOF_HISTORY := 36
  const SIZEOF_STOCK := 306
  const SIZEOF_ORDER := 20
  const SIZEOF_ORDER_LINE := 46

  /* --- Little-endian integers --- */

  function FromLE(b: Bytes): nat
  {
    if b == [] then 0 else b[0] + 256 * FromLE(b[1..])
  }

  /** The low `len` bytes of `n`, least significant first. */
  function ToLE(n: int, len: nat): (b: Bytes)
    ensures |b| == len
    decreases len
  {
    if len == 0 then [] else [n % 256] + ToLE(n / 256, len - 1)
  }

  lemma {:induction false} LERoundTrip(n: int, len: nat)
    ensures FromLE(ToLE(n, len)) == n % Pow256(len)
    decreases len
  {
    if len > 0 {
      LERoundTrip(n / 256, len - 1);
      assert ToLE(n, len)[1..] == ToLE(n / 256, len - 1);
      DigitStep(n, Pow256(len - 1));
    }
  }

  function Field(v: Bytes, off: nat, len: nat): nat
    requires off + len <= |v|
  {
    FromLE(v[off..off + len])
  }

  /** One struct member: its value (truncated to its width) and its width in bytes. */
  datatype Member = M(value: int, width: nat)

  /** A packed struct: its members, one after the other. */
  function Pack(ms: seq<Member>): (v: Bytes)
    ensures |v| == Offset(ms, |ms|)
  {
    if ms == [] then []
    else
      var n := |ms| - 1;
      OffsetPrefix(ms, n);
      Pack(ms[..n]) + ToLE(ms[n].value, ms[n].width)
  }

  function Offset(ms: seq<Member>, i: nat): nat
    requires i <= |ms|
  {
    if i == 0 then 0 else Offset(ms, i - 1) + ms[i - 1].width
  }

  lemma {:induction false} OffsetPrefix(ms: seq<Member>, n: nat)
    requires n <= |ms|
    ensures forall i :: 0 <= i <= n ==> Offset(ms[..n], i) == Offset(ms, i)
  {
    var i := 0;
    while i < n
      invariant 0 <= i <= n
      invariant forall j :: 0 <= j <= i ==> Offset(ms[..n], j) == Offset(ms, j)
    {
      i := i + 1;
    }
  }

  lemma SliceConcat(a: Bytes, b: Bytes, i: nat, j: nat)
    requires i <= j <= |a|
    ensures (a + b)[i..j] == a[i..j] && (a + b)[|a|..|a| + |b|] == b
  {
  }

  /** Every member of a packed struct reads back, modulo its width, at its offset. */
  lemma {:induction false} PackField(ms: seq<Member>, i: nat)
    requires i < |ms|
    ensures Offset(ms, i) + ms[i].width <= |Pack(ms)|
    ensures Field(Pack(ms), Offset(ms, i), ms[i].width) == ms[i].value % Pow256(ms[i].width)
    decreases |ms|
  {
    var n := |ms| - 1;
    OffsetPrefix(ms, n);
    var front, last := Pack(ms[..n]), ToLE(ms[n].value, ms[n].width);
    assert Pack(ms) == front + last;
    if i == n {
      SliceConcat(front, last, 0, 0);
      LERoundTrip(ms[n].value, ms[n].width);
    } else {
      PackField(ms[..n], i);
      SliceConcat(front, last, Offset(ms, i), Offset(ms, i) + ms[i].width);
    }
  }

  lemma SignExtend(x: int)
    ensures -0x8000 <= x < 0x8000 ==> I16(x % TWO16) == x
    ensures -0x8000_0000 <= x < 0x8000_0000 ==> I32(x % TWO32) == x
    ensures 0 <= x < TWO32 ==> U32(x % TWO32) == x
    ensures -0x8000_0000_0000_0000 <= x < 0x8000_0000_0000_0000 ==> I64(x % TWO64) == x
  {
    if -0x8000 <= x < 0x8000 { assert x % TWO16 == x || x % TWO16 == x + TWO16; }
    if -0x8000_0000 <= x < 0x8000_0000 { assert x % TWO32 == x || x % TWO32 == x + TWO32; }
    if -0x8000_0000_0000_0000 <= x < 0x8000_0000_0000_0000 { assert x % TWO64 == x || x % TWO64 == x + TWO64; }
  }

  lemma PackI16(ms: seq<Member>, i: nat)
    requires i < |ms| && ms[i].width == 2 && -0x8000 <= ms[i].value < 0x8000
    ensures Offset(ms, i) + 2 <= |Pack(ms)| && I16(Field(Pack(ms), Offset(ms, i), 2)) == ms[i].value
  {
    PackField(ms, i);
    PowersOf256();
    SignExtend(ms[i].value);
  }

  lemma PackI32(ms: seq<Member>, i: nat)
    requires i < |ms| && ms[i].width == 4 && -0x8000_0000 <= ms[i].value < 0x8000_0000
    ensures Offset(ms, i) + 4 <= |Pack(ms)| && I32(Field(Pack(ms), Offset(ms, i), 4)) == ms[i].value
  {
    PackField(ms, i);
    PowersOf256();
    SignExtend(ms[i].value);
  }

  lemma PackU32(ms: seq<Member>, i: nat)
    requires i < |ms| && ms[i].width == 4 && 0 <= ms[i].value < TWO32
    ensures Offset(ms, i) + 4 <= |Pack(ms)| && U32(Field(Pack(ms), Offset(ms, i), 4)) == ms[i].value
  {
    PackField(ms, i);
    PowersOf256();
    SignExtend(ms[i].value);
  }

  lemma PackI64(ms: seq<Member>, i: nat)
    requires i < |ms| && ms[i].width == 8 && -0x8000_0000_0000_0000 <= ms[i].value < 0x8000_0000_0000_0000
    ensures Offset(ms, i) + 8 <= |Pack(ms)| && I64(Field(Pack(ms), Offset(ms, i), 8)) == ms[i].value
  {
    PackField(ms, i);
    PowersOf256();
    SignExtend(ms[i].value);
  }

  /* --- Reading --- */

  function ReadI16(v: Bytes, off: nat): i16 requires off + 2 <= |v| { I16(Field(v, off, 2)) }

  function ReadI32(v: Bytes, off: nat): i32 requires off + 4 <= |v| { I32(Field(v, off, 4)) }

  function ReadU32(v: Bytes, off: nat): u32 requires off + 4 <= |v| { U32(Field(v, off, 4)) }

  function ReadI64(v: Bytes, off: nat): i64 requires off + 8 <= |v| { I64(Field(v, off, 8)) }

  /** What the handlers see of value `v` stored under a key of the table of `k`. */
  function View(k: Key, v: Bytes): Row
  {
    match k
    case Warehouse(_) =>
      if |v| < SIZEOF_WAREHOUSE then Blob(v) else WarehouseRow(ReadI64(v, 85))
    case District(_, _) =>
      if |v| < SIZEOF_DISTRICT then Blob(v) else DistrictRow(ReadI32(v, 81), ReadI64(v, 85), ReadI32(v, 93))
    case Customer(_, _, _) =>
      if |v| < SIZEOF_CUSTOMER then Blob(v)
      else CustomerRow(ReadI32(v, 139), ReadI64(v, 143), ReadI64(v, 151), ReadI16(v, 159))
    case History(_, _, _, _, _) =>
      if |v| < SIZEOF_HISTORY then Blob(v) else HistoryRow(ReadI64(v, 0), ReadI32(v, 8))
    case Stock(_, _) =>
      if |v| < SIZEOF_STOCK then Blob(v) else StockRow(ReadI32(v, 0), ReadI32(v, 244), ReadI32(v, 248))
    case Order(_, _, _) =>
      if |v| < SIZEOF_ORDER then Blob(v)
      else OrderRow(ReadU32(v, 0), ReadI32(v, 4), ReadI16(v, 8), ReadI16(v, 10), ReadI64(v, 12))
    case OrderLine(_, _, _, _) =>
      if |v| < SIZEOF_ORDER_LINE then Blob(v)
      else OrderLineRow(ReadU32(v, 0), ReadU32(v, 4), ReadI16(v, 16), ReadI32(v, 18))
    case NextOid(_, _) => CounterRow(DecodeNextOid(v))
    case _ => Blob(v)
  }

  /* --- Writing --- */

  /* The structs of `tpcc_kv.h`, column by column. */

  datatype Name =
    | Title | Street1 | Street2 | City | StateCode | Zip | Tax | Ytd | NextOrder
    | First | Middle | Last | Phone | Since | CreditMark | CreditLimit | Discount | Balance
    | YtdPayment | PaymentCnt | DeliveryCnt | Data
    | Date | Amount
    | Quantity | DistInfo | OrderCnt | RemoteCnt
    | CustomerId | CarrierId | LineCnt | AllLocal | EntryDate
    | ItemId | SupplyId | DeliveryDate

  datatype Column = Column(name: Name, width: nat)

  /** The members of the packed struct of a table, in declaration order. */
  function Columns(r: Row): seq<Column>
  {
    match r
    case WarehouseRow(_) => Address() + [Column(Tax, 4), Column(Ytd, 8)]
    case DistrictRow(_, _, _) => Address() + [Column(Tax, 4), Column(Ytd, 8), Column(NextOrder, 4)]
    case CustomerRow(_, _, _, _) =>
      [Column(First, 16), Column(Middle, 2), Column(Last, 16), Column(Street1, 20), Column(Street2, 20),
       Column(City, 20), Column(StateCode, 2), Column(Zip, 9), Column(Phone, 16), Column(Since, 8),
       Column(CreditMark, 2), Column(CreditLimit, 8), Column(Discount, 4), Column(Balance, 8),
       Column(YtdPayment, 8), Column(PaymentCnt, 2), Column(DeliveryCnt, 2), Column(Data, 500)]
    case HistoryRow(_, _) => [Column(Date, 8), Column(Amount, 4), Column(Data, 24)]
    case StockRow(_, _, _) =>
      [Column(Quantity, 4), Column(DistInfo, 240), Column(Ytd, 4), Column(OrderCnt, 4), Column(RemoteCnt, 4),
       Column(Data, 50)]
    case OrderRow(_, _, _, _, _) =>
      [Column(CustomerId, 4), Column(CarrierId, 4), Column(LineCnt, 2), Column(AllLocal, 2), Column(EntryDate, 8)]
    case OrderLineRow(_, _, _, _) =>
      [Column(ItemId, 4), Column(SupplyId, 4), Column(DeliveryDate, 8), Column(Quantity, 2), Column(Amount, 4),
       Column(DistInfo, 24)]
    case _ => []
  }

  function Address(): seq<Column>
  {
    [Column(Title, 10), Column(Street1, 20), Column(Street2, 20), Column(City, 20), Column(StateCode, 2),
     Column(Zip, 9)]
  }

  /** The field of a row that a column holds, for the columns that some handler reads or writes. */
  function FieldOf(r: Row, n: Name): Option<int>
  {
    match r
    case WarehouseRow(ytd) =>
      (match n case Ytd => Some(ytd) case _ => None)
    case DistrictRow(tax, ytd, next) =>
      (match n case Tax => Some(tax) case Ytd => Some(ytd) case NextOrder => Some(next) case _ => None)
    case CustomerRow(discount, balance, ytd, cnt) =>
      (match n case Discount => Some(discount) case Balance => Some(balance) case YtdPayment => Some(ytd)
               case PaymentCnt => Some(cnt) case _ => None)
    case HistoryRow(date, amount) =>
      (match n case Date => Some(date) case Amount => Some(amount) case _ => None)
    case StockRow(quantity, ytd, cnt) =>
      (match n case Quantity => Some(quantity) case Ytd => Some(ytd) case OrderCnt => Some(cnt) case _ => None)
    case OrderRow(c, carrier, lines, local, entry) =>
      (match n case CustomerId => Some(c) case CarrierId => Some(carrier) case LineCnt => Some(lines)
               case AllLocal => Some(local) case EntryDate => Some(entry) case _ => None)
    case OrderLineRow(item, supply, quantity, amount) =>
      (match n case ItemId => Some(item) case SupplyId => Some(supply) case Quantity => Some(quantity)
               case Amount => Some(amount) case _ => None)
    case _ => None
  }

  /** What the column holds in a row that a handler writes: the field, or zero. */
  function Written(r: Row, n: Name): int
  {
    var f := FieldOf(r, n);
    if f.Some? then f.value else 0
  }

  function SizeOf(cs: seq<Column>): nat
  {
    if cs == [] then 0 else SizeOf(cs[..|cs| - 1]) + cs[|cs| - 1].width
  }

  /** Where the `i`-th column begins. */
  function Begin(r: Row, i: nat): nat
    requires i <= |Columns(r)|
  {
    SizeOf(Columns(r)[..i])
  }

  lemma SizeOfStep(cs: seq<Column>, i: nat)
    requires i < |cs|
    ensures SizeOf(cs[..i + 1]) == SizeOf(cs[..i]) + cs[i].width
  {
    assert cs[..i + 1][..i] == cs[..i];
  }

  /** The members of a written struct: the fields, and zeros in all other columns. */
  function Members(r: Row): (ms: seq<Member>)
    ensures |ms| == |Columns(r)|
  {
    seq(|Columns(r)|, i requires 0 <= i < |Columns(r)| =>
      M(Written(r, Columns(r)[i].name), Columns(r)[i].width))
  }

  lemma {:induction false} MemberOffset(r: Row, i: nat)
    requires i <= |Columns(r)|
    ensures Offset(Members(r), i) == Begin(r, i)
  {
    if i > 0 {
      MemberOffset(r, i - 1);
      SizeOfStep(Columns(r), i - 1);
    }
  }

  lemma WarehouseBegins(r: Row)
    requires r.WarehouseRow?
    ensures |Columns(r)| == 8
    ensures Begin(r, 0) == 0 && Begin(r, 1) == 10 && Begin(r, 2) == 30 && Begin(r, 3) == 50 && Begin(r, 4) == 70
    ensures Begin(r, 5) == 72 && Begin(r, 6) == 81 && Begin(r, 7) == 85 && Begin(r, 8) == 93
  {
    var cs := Columns(r);
    assert cs[..0] == [];
    SizeOfStep(cs, 0);
    SizeOfStep(cs, 1);
    SizeOfStep(cs, 2);
    SizeOfStep(cs, 3);
    SizeOfStep(cs, 4);
    SizeOfStep(cs, 5);
    SizeOfStep(cs, 6);
    SizeOfStep(cs, 7);
  }

  lemma DistrictBegins(r: Row)
    requires r.DistrictRow?
    ensures |Columns(r)| == 9
    ensures Begin(r, 0) == 0 && Begin(r, 1) == 10 && Begin(r, 2) == 30 && Begin(r, 3) == 50 && Begin(r, 4) == 70
    ensures Begin(r, 5) == 72 && Begin(r, 6) == 81 && Begin(r, 7) == 85 && Begin(r, 8) == 93 && Begin(r, 9) == 97
  {
    var cs := Columns(r);
    assert cs[..0] == [];
    SizeOfStep(cs, 0);
    SizeOfStep(cs, 1);
    SizeOfStep(cs, 2);
    SizeOfStep(cs, 3);
    SizeOfStep(cs, 4);
    SizeOfStep(cs, 5);
    SizeOfStep(cs, 6);
    SizeOfStep(cs, 7);
    SizeOfStep(cs, 8);
  }

  lemma CustomerNames(r: Row)
    requires r.CustomerRow?
    ensures |Columns(r)| == 18
    ensures Begin(r, 0) == 0 && Begin(r, 1) == 16 && Begin(r, 2) == 18 && Begin(r, 3) == 34 && Begin(r, 4) == 54
    ensures Begin(r, 5) == 74 && Begin(r, 6) == 94
  {
    var cs := Columns(r);
    assert cs[..0] == [];
    SizeOfStep(cs, 0);
    SizeOfStep(cs, 1);
    SizeOfStep(cs, 2);
    SizeOfStep(cs, 3);
    SizeOfStep(cs, 4);
    SizeOfStep(cs, 5);
  }

  lemma CustomerContacts(r: Row)
    requires r.CustomerRow?
    ensures |Columns(r)| == 18
    ensures Begin(r, 6) == 94 && Begin(r, 7) == 96 && Begin(r, 8) == 105 && Begin(r, 9) == 121 && Begin(r, 10) == 129
    ensures Begin(r, 11) == 131 && Begin(r, 12) == 139
  {
    var cs := Columns(r);
    CustomerNames(r);
    SizeOfStep(cs, 6);
    SizeOfStep(cs, 7);
    SizeOfStep(cs, 8);
    SizeOfStep(cs, 9);
    SizeOfStep(cs, 10);
    SizeOfStep(cs, 11);
  }

  lemma CustomerMoney(r: Row)
    requires r.CustomerRow?
    ensures |Columns(r)| == 18
    ensures Begin(r, 12) == 139 && Begin(r, 13) == 143 && Begin(r, 14) == 151 && Begin(r, 15) == 159
    ensures Begin(r, 16) == 161
    ensures Begin(r, 17) == 163 && Begin(r, 18) == 663
  {
    var cs := Columns(r);
    CustomerContacts(r);
    SizeOfStep(cs, 12);
    SizeOfStep(cs, 13);
    SizeOfStep(cs, 14);
    SizeOfStep(cs, 15);
    SizeOfStep(cs, 16);
    SizeOfStep(cs, 17);
  }

  lemma HistoryBegins(r: Row)
    requires r.HistoryRow?
    ensures |Columns(r)| == 3
    ensures Begin(r, 0) == 0 && Begin(r, 1) == 8 && Begin(r, 2) == 12 && Begin(r, 3) == 36
  {
    var cs := Columns(r);
    assert cs[..0] == [];
    SizeOfStep(cs, 0);
    SizeOfStep(cs, 1);
    SizeOfStep(cs, 2);
  }

  lemma StockBegins(r: Row)
    requires r.StockRow?
    ensures |Columns(r)| == 6
    ensures Begin(r, 0) == 0 && Begin(r, 1) == 4 && Begin(r, 2) == 244 && Begin(r, 3) == 248 && Begin(r, 4) == 252
    ensures Begin(r, 5) == 256 && Begin(r, 6) == 306
  {
    var cs := Columns(r);
    assert cs[..0] == [];
    SizeOfStep(cs, 0);
    SizeOfStep(cs, 1);
    SizeOfStep(cs, 2);
    SizeOfStep(cs, 3);
    SizeOfStep(cs, 4);
    SizeOfStep(cs, 5);
  }

  lemma OrderBegins(r: Row)
    requires r.OrderRow?
    ensures |Columns(r)| == 5
    ensures Begin(r, 0) == 0 && Begin(r, 1) == 4 && Begin(r, 2) == 8 && Begin(r, 3) == 10 && Begin(r, 4) == 12
    ensures Begin(r, 5) == 20
  {
    var cs := Columns(r);
    assert cs[..0] == [];
    SizeOfStep(cs, 0);
    SizeOfStep(cs, 1);
    SizeOfStep(cs, 2);
    SizeOfStep(cs, 3);
    SizeOfStep(cs, 4);
  }

  lemma OrderLineBegins(r: Row)
    requires r.OrderLineRow?
    ensures |Columns(r)| == 6
    ensures Begin(r, 0) == 0 && Begin(r, 1) == 4 && Begin(r, 2) == 8 && Begin(r, 3) == 16 && Begin(r, 4) == 18
    ensures Begin(r, 5) == 22 && Begin(r, 6) == 46
  {
    var cs := Columns(r);
    assert cs[..0] == [];
    SizeOfStep(cs, 0);
    SizeOfStep(cs, 1);
    SizeOfStep(cs, 2);
    SizeOfStep(cs, 3);
    SizeOfStep(cs, 4);
    SizeOfStep(cs, 5);
  }

  function EncodeRow(r: Row): Bytes
  {
    match r
    case Blob(v) => v
    case CounterRow(n) => EncodeNextOid(n)
    case _ => Pack(Members(r))
  }

  /** Rows of the kind that belongs under key `k`. */
  predicate Fits(k: Key, r: Row)
  {
    match k
    case Warehouse(_) => r.WarehouseRow?
    case District(_, _) => r.DistrictRow?
    case Customer(_, _, _) => r.CustomerRow?
    case History(_, _, _, _, _) => r.HistoryRow?
    case Stock(_, _) => r.StockRow?
    case Order(_, _, _) => r.OrderRow?
    case OrderLine(_, _, _, _) => r.OrderLineRow?
    case NextOid(_, _) => r.CounterRow?
    case _ => r.Blob?
  }

  lemma ReadBack(ms: seq<Member>, i: nat, off: nat)
    requires i < |ms| && off == Offset(ms, i)
    ensures ms[i].width == 2 && -0x8000 <= ms[i].value < 0x8000 ==>
      off + 2 <= |Pack(ms)| && ReadI16(Pack(ms), off) == ms[i].value
    ensures ms[i].width == 4 && -0x8000_0000 <= ms[i].value < 0x8000_0000 ==>
      off + 4 <= |Pack(ms)| && ReadI32(Pack(ms), off) == ms[i].value
    ensures ms[i].width == 4 && 0 <= ms[i].value < TWO32 ==>
      off + 4 <= |Pack(ms)| && ReadU32(Pack(ms), off) == ms[i].value
    ensures ms[i].width == 8 && -0x8000_0000_0000_0000 <= ms[i].value < 0x8000_0000_0000_0000 ==>
      off + 8 <= |Pack(ms)| && ReadI64(Pack(ms), off) == ms[i].value
  {
    if ms[i].width == 2 && -0x8000 <= ms[i].value < 0x8000 { PackI16(ms, i); }
    if ms[i].width == 4 && -0x8000_0000 <= ms[i].value < 0x8000_0000 { PackI32(ms, i); }
    if ms[i].width == 4 && 0 <= ms[i].value < TWO32 { PackU32(ms, i); }
    if ms[i].width == 8 && -0x8000_0000_0000_0000 <= ms[i].value < 0x8000_0000_0000_0000 { PackI64(ms, i); }
  }

  /** Member `i` of `ms` has this value and width and begins at `off`. */
  ghost predicate At(ms: seq<Member>, i: nat, off: nat, value: int, width: nat)
  {
    i < |ms| && ms[i] == M(value, width) && Offset(ms, i) == off
  }

  lemma MemberAt(r: Row, i: nat)
    requires i < |Columns(r)|
    ensures At(Members(r), i, Begin(r, i), Written(r, Columns(r)[i].name), Columns(r)[i].width)
  {
    MemberOffset(r, i);
  }

  lemma RowSize(r: Row)
    ensures |Pack(Members(r))| == Begin(r, |Columns(r)|)
  {
    MemberOffset(r, |Columns(r)|);
  }

  lemma WarehouseSize(r: Row)
    requires r.WarehouseRow?
    ensures |Pack(Members(r))| == 93
  {
    WarehouseBegins(r);
    RowSize(r);
  }

  lemma WarehouseMembers(r: Row)
    requires r.WarehouseRow?
    ensures var ms := Members(r);
      && At(ms, 7, 85, r.wYtd, 8)
  {
    WarehouseBegins(r);
    MemberAt(r, 7);
  }

  lemma ViewWarehouse(k: Key, r: Row, ms: seq<Member>)
    requires Fits(k, r) && r.WarehouseRow? && |Pack(ms)| == 93
    requires At(ms, 7, 85, r.wYtd, 8)
    ensures View(k, Pack(ms)) == r
  {
    ReadBack(ms, 7, 85);
  }

  lemma DistrictSize(r: Row)
    requires r.DistrictRow?
    ensures |Pack(Members(r))| == 97
  {
    DistrictBegins(r);
    RowSize(r);
  }

  lemma DistrictMembers(r: Row)
    requires r.DistrictRow?
    ensures var ms := Members(r);
      && At(ms, 6, 81, r.dTax, 4) && At(ms, 7, 85, r.dYtd, 8) && At(ms, 8, 93, r.dNextOid, 4)
  {
    DistrictBegins(r);
    MemberAt(r, 6);
    MemberAt(r, 7);
    MemberAt(r, 8);
  }

  lemma ViewDistrict(k: Key, r: Row, ms: seq<Member>)
    requires Fits(k, r) && r.DistrictRow? && |Pack(ms)| == 97
    requires At(ms, 6, 81, r.dTax, 4) && At(ms, 7, 85, r.dYtd, 8) && At(ms, 8, 93, r.dNextOid, 4)
    ensures View(k, Pack(ms)) == r
  {
    ReadBack(ms, 6, 81);
    ReadBack(ms, 7, 85);
    ReadBack(ms, 8, 93);
  }

  lemma CustomerSize(r: Row)
    requires r.CustomerRow?
    ensures |Pack(Members(r))| == 663
  {
    CustomerMoney(r);
    RowSize(r);
  }

  lemma CustomerMembers(r: Row)
    requires r.CustomerRow?
    ensures var ms := Members(r);
      && At(ms, 12, 139, r.cDiscount, 4) && At(ms, 13, 143, r.cBalance, 8) && At(ms, 14, 151, r.cYtdPayment, 8)
      && At(ms, 15, 159, r.cPaymentCnt, 2)
  {
    CustomerMoney(r);
    MemberAt(r, 12);
    MemberAt(r, 13);
    MemberAt(r, 14);
    MemberAt(r, 15);
  }

  lemma ViewCustomer(k: Key, r: Row, ms: seq<Member>)
    requires Fits(k, r) && r.CustomerRow? && |Pack(ms)| == 663
    requires At(ms, 12, 139, r.cDiscount, 4) && At(ms, 13, 143, r.cBalance, 8) && At(ms, 14, 151, r.cYtdPayment, 8)
    requires At(ms, 15, 159, r.cPaymentCnt, 2)
    ensures View(k, Pack(ms)) == r
  {
    ReadBack(ms, 12, 139);
    ReadBack(ms, 13, 143);
    ReadBack(ms, 14, 151);
    ReadBack(ms, 15, 159);
  }

  lemma HistorySize(r: Row)
    requires r.HistoryRow?
    ensures |Pack(Members(r))| == 36
  {
    HistoryBegins(r);
    RowSize(r);
  }

  lemma HistoryMembers(r: Row)
    requires r.HistoryRow?
    ensures var ms := Members(r);
      && At(ms, 0, 0, r.hDate, 8) && At(ms, 1, 8, r.hAmount, 4)
  {
    HistoryBegins(r);
    MemberAt(r, 0);
    MemberAt(r, 1);
  }

  lemma ViewHistory(k: Key, r: Row, ms: seq<Member>)
    requires Fits(k, r) && r.HistoryRow? && |Pack(ms)| == 36
    requires At(ms, 0, 0, r.hDate, 8) && At(ms, 1, 8, r.hAmount, 4)
    ensures View(k, Pack(ms)) == r
  {
    ReadBack(ms, 0, 0);
    ReadBack(ms, 1, 8);
  }

  lemma StockSize(r: Row)
    requires r.StockRow?
    ensures |Pack(Members(r))| == 306
  {
    StockBegins(r);
    RowSize(r);
  }

  lemma StockMembers(r: Row)
    requires r.StockRow?
    ensures var ms := Members(r);
      && At(ms, 0, 0, r.sQuantity, 4) && At(ms, 2, 244, r.sYtd, 4) && At(ms, 3, 248, r.sOrderCnt, 4)
  {
    StockBegins(r);
    MemberAt(r, 0);
    MemberAt(r, 2);
    MemberAt(r, 3);
  }

  lemma ViewStock(k: Key, r: Row, ms: seq<Member>)
    requires Fits(k, r) && r.StockRow? && |Pack(ms)| == 306
    requires At(ms, 0, 0, r.sQuantity, 4) && At(ms, 2, 244, r.sYtd, 4) && At(ms, 3, 248, r.sOrderCnt, 4)
    ensures View(k, Pack(ms)) == r
  {
    ReadBack(ms, 0, 0);
    ReadBack(ms, 2, 244);
    ReadBack(ms, 3, 248);
  }

  lemma OrderSize(r: Row)
    requires r.OrderRow?
    ensures |Pack(Members(r))| == 20
  {
    OrderBegins(r);
    RowSize(r);
  }

  lemma OrderMembers(r: Row)
    requires r.OrderRow?
    ensures var ms := Members(r);
      && At(ms, 0, 0, r.oCustomer, 4) && At(ms, 1, 4, r.oCarrier, 4) && At(ms, 2, 8, r.oLineCnt, 2)
      && At(ms, 3, 10, r.oAllLocal, 2) && At(ms, 4, 12, r.oEntry, 8)
  {
    OrderBegins(r);
    MemberAt(r, 0);
    MemberAt(r, 1);
    MemberAt(r, 2);
    MemberAt(r, 3);
    MemberAt(r, 4);
  }

  lemma ViewOrder(k: Key, r: Row, ms: seq<Member>)
    requires Fits(k, r) && r.OrderRow? && |Pack(ms)| == 20
    requires At(ms, 0, 0, r.oCustomer, 4) && At(ms, 1, 4, r.oCarrier, 4) && At(ms, 2, 8, r.oLineCnt, 2)
    requires At(ms, 3, 10, r.oAllLocal, 2) && At(ms, 4, 12, r.oEntry, 8)
    ensures View(k, Pack(ms)) == r
  {
    ReadBack(ms, 0, 0);
    ReadBack(ms, 1, 4);
    ReadBack(ms, 2, 8);
    ReadBack(ms, 3, 10);
    ReadBack(ms, 4, 12);
  }

  lemma OrderLineSize(r: Row)
    requires r.OrderLineRow?
    ensures |Pack(Members(r))| == 46
  {
    OrderLineBegins(r);
    RowSize(r);
  }

  lemma OrderLineMembers(r: Row)
    requires r.OrderLineRow?
    ensures var ms := Members(r);
      && At(ms, 0, 0, r.olItem, 4) && At(ms, 1, 4, r.olSupply, 4) && At(ms, 3, 16, r.olQuantity, 2)
      && At(ms, 4, 18, r.olAmount, 4)
  {
    OrderLineBegins(r);
    MemberAt(r, 0);
    MemberAt(r, 1);
    MemberAt(r, 3);
    MemberAt(r, 4);
  }

  lemma ViewOrderLine(k: Key, r: Row, ms: seq<Member>)
    requires Fits(k, r) && r.OrderLineRow? && |Pack(ms)| == 46
    requires At(ms, 0, 0, r.olItem, 4) && At(ms, 1, 4, r.olSupply, 4) && At(ms, 3, 16, r.olQuantity, 2)
    requires At(ms, 4, 18, r.olAmount, 4)
    ensures View(k, Pack(ms)) == r
  {
    ReadBack(ms, 0, 0);
    ReadBack(ms, 1, 4);
    ReadBack(ms, 3, 16);
    ReadBack(ms, 4, 18);
  }

  /** What a handler writes is what the next handler reads: every field survives the struct layout. */
  lemma RowRoundTrip(k: Key, r: Row)
    requires Fits(k, r)
    ensures View(k, EncodeRow(r)) == r
  {
    match r
    case CounterRow(n) => NextOidRoundTrip(n);
    case Blob(_) =>
    case WarehouseRow(_) => WarehouseSize(r); WarehouseMembers(r); ViewWarehouse(k, r, Members(r));
    case DistrictRow(_, _, _) => DistrictSize(r); DistrictMembers(r); ViewDistrict(k, r, Members(r));
    case CustomerRow(_, _, _, _) => CustomerSize(r); CustomerMembers(r); ViewCustomer(k, r, Members(r));
    case HistoryRow(_, _) => HistorySize(r); HistoryMembers(r); ViewHistory(k, r, Members(r));
    case StockRow(_, _, _) => StockSize(r); StockMembers(r); ViewStock(k, r, Members(r));
    case OrderRow(_, _, _, _, _) => OrderSize(r); OrderMembers(r); ViewOrder(k, r, Members(r));
    case OrderLineRow(_, _, _, _) => OrderLineSize(r); OrderLineMembers(r); ViewOrderLine(k, r, Members(r));
  }
}
