/** Row values byte by byte: every column of a struct of `tpcc_kv.h`, where a handler finds it and
    what it leaves in the columns it does not set. */
module Layouts {
  import opened Words
  import opened Keyspace
  import opened Rows

  /* --- The bytes of a written row --- */

  lemma {:induction false} PackSlice(ms: seq<Member>, j: nat)
    requires j < |ms|
    ensures Offset(ms, j + 1) <= |Pack(ms)|
    ensures Pack(ms)[Offset(ms, j)..Offset(ms, j + 1)] == ToLE(ms[j].value, ms[j].width)
    decreases |ms|
  {
    var n := |ms| - 1;
    OffsetPrefix(ms, n);
    var front, last := Pack(ms[..n]), ToLE(ms[n].value, ms[n].width);
    assert Pack(ms) == front + last;
    if j == n {
      SliceConcat(front, last, 0, 0);
    } else {
      PackSlice(ms[..n], j);
      SliceConcat(front, last, Offset(ms, j), Offset(ms, j + 1));
    }
  }

  /** Main result on what is written: every column of the struct, in declaration order, holds its
      field, little-endian, and zeros if no handler sets it; there is nothing behind the last one. */
  lemma ColumnBytes(k: Key, r: Row, i: nat)
    requires Fits(k, r) && i < |Columns(r)|
    ensures |EncodeRow(r)| == SizeOf(Columns(r))
    ensures Begin(r, i) <= Begin(r, i + 1) <= |EncodeRow(r)|
    ensures EncodeRow(r)[Begin(r, i)..Begin(r, i + 1)] == ToLE(Written(r, Columns(r)[i].name), Columns(r)[i].width)
  {
    MemberOffset(r, i);
    MemberOffset(r, i + 1);
    PackSlice(Members(r), i);
    RowSize(r);
    assert Columns(r)[..|Columns(r)|] == Columns(r);
  }

  /* --- The fields of a stored value --- */

  /** The integer a C cast finds in a column. */
  function Cast(x: nat, n: Name, width: nat): int
  {
    if n == CustomerId || n == ItemId || n == SupplyId then x
    else if width == 2 then I16(x)
    else if width == 4 then I32(x)
    else I64(x)
  }

  /** Column `i` of a stored value is what the handlers see of it. */
  ghost predicate Sees(k: Key, v: Bytes, i: nat)
    requires i < |Columns(View(k, v))|
  {
    var r := View(k, v);
    var c := Columns(r)[i];
    FieldOf(r, c.name).Some? ==>
      && Begin(r, i) + c.width <= |v|
      && FieldOf(r, c.name).value == Cast(Field(v, Begin(r, i), c.width), c.name, c.width)
  }

  lemma WarehouseSees(k: Key, v: Bytes, i: nat)
    requires View(k, v).WarehouseRow? && i < |Columns(View(k, v))|
    ensures Sees(k, v, i)
  {
    WarehouseBegins(View(k, v));
  }

  lemma DistrictSees(k: Key, v: Bytes, i: nat)
    requires View(k, v).DistrictRow? && i < |Columns(View(k, v))|
    ensures Sees(k, v, i)
  {
    DistrictBegins(View(k, v));
  }

  lemma CustomerSees(k: Key, v: Bytes, i: nat)
    requires View(k, v).CustomerRow? && i < |Columns(View(k, v))|
    ensures Sees(k, v, i)
  {
    CustomerMoney(View(k, v));
  }

  lemma StockSees(k: Key, v: Bytes, i: nat)
    requires (View(k, v).HistoryRow? || View(k, v).StockRow?) && i < |Columns(View(k, v))|
    ensures Sees(k, v, i)
  {
    var r := View(k, v);
    if r.HistoryRow? { HistoryBegins(r); } else { StockBegins(r); }
  }

  lemma OrderSees(k: Key, v: Bytes, i: nat)
    requires View(k, v).OrderRow? && i < |Columns(View(k, v))|
    ensures Sees(k, v, i)
  {
    OrderBegins(View(k, v));
    UnsignedWord(v, 0);
  }

  lemma OrderLineSees(k: Key, v: Bytes, i: nat)
    requires View(k, v).OrderLineRow? && i < |Columns(View(k, v))|
    ensures Sees(k, v, i)
  {
    OrderLineBegins(View(k, v));
    UnsignedWord(v, 0);
    UnsignedWord(v, 4);
  }

  /** Four bytes make an unsigned word as they are. */
  lemma UnsignedWord(v: Bytes, off: nat)
    requires off + 4 <= |v|
    ensures ReadU32(v, off) == Field(v, off, 4)
  {
    LEBound(v[off..off + 4]);
    PowersOf256();
  }

  lemma {:induction false} LEBound(b: Bytes)
    ensures FromLE(b) < Pow256(|b|)
  {
    if b != [] { LEBound(b[1..]); }
  }

  /** Main result on what is read: each field of the view of a stored value is the integer in its
      column of the struct. */
  lemma ColumnReads(k: Key, v: Bytes, i: nat)
    requires i < |Columns(View(k, v))|
    ensures Sees(k, v, i)
  {
    match View(k, v)
    case WarehouseRow(_) => WarehouseSees(k, v, i);
    case DistrictRow(_, _, _) => DistrictSees(k, v, i);
    case CustomerRow(_, _, _, _) => CustomerSees(k, v, i);
    case HistoryRow(_, _) => StockSees(k, v, i);
    case StockRow(_, _, _) => StockSees(k, v, i);
    case OrderRow(_, _, _, _, _) => OrderSees(k, v, i);
    case OrderLineRow(_, _, _, _) => OrderLineSees(k, v, i);
  }

  /** Which values show a row of the table of `k`: those at least as long as its struct. */
  lemma LongEnough(k: Key, v: Bytes, r: Row)
    requires Fits(k, r) && Columns(r) != []
    ensures Fits(k, View(k, v)) <==> |v| >= SizeOf(Columns(r))
  {
    assert Columns(r)[..|Columns(r)|] == Columns(r);
    match r
    case WarehouseRow(_) => WarehouseBegins(r);
    case DistrictRow(_, _, _) => DistrictBegins(r);
    case CustomerRow(_, _, _, _) => CustomerMoney(r);
    case HistoryRow(_, _) => HistoryBegins(r);
    case StockRow(_, _, _) => StockBegins(r);
    case OrderRow(_, _, _, _, _) => OrderBegins(r);
    case OrderLineRow(_, _, _, _) => OrderLineBegins(r);
  }
}
