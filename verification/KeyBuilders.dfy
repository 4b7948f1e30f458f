/** The key builders as `tpcc_kv.c` runs them: they fill a caller's buffer at a
    moving offset and return the key length. */
module KeyBuilders {
  import opened Words
  import opened Keyspace

  /** `memcpy` of `bs` to `buf + off`. */
  method Put(buf: array<byte>, off: nat, bs: Bytes) returns (end: nat)
    requires off + |bs| <= buf.Length
    modifies buf
    ensures end == off + |bs|
    ensures buf[..end] == old(buf[..off]) + bs
    ensures forall j :: end <= j < buf.Length ==> buf[j] == old(buf[j])
  {
    var i := 0;
    while i < |bs|
      invariant 0 <= i <= |bs|
      invariant buf[..off] == old(buf[..off])
      invariant forall j :: 0 <= j < i ==> buf[off + j] == bs[j]
      invariant forall j :: off + i <= j < buf.Length ==> buf[j] == old(buf[j])
    {
      buf[off + i] := bs[i];
      i := i + 1;
    }
    end := off + |bs|;
    assert buf[off..end] == bs;
    assert buf[..end] == buf[..off] + buf[off..end];
  }

  /** `kv_encode_u32_be` at `buf + off`. */
  method PutU32(buf: array<byte>, off: nat, v: u32) returns (end: nat)
    requires off + 4 <= buf.Length
    modifies buf
    ensures end == off + 4
    ensures buf[..end] == old(buf[..off]) + EncodeU32(v)
    ensures forall j :: end <= j < buf.Length ==> buf[j] == old(buf[j])
  {
    buf[off] := v / 0x100_0000 % 256;
    buf[off + 1] := v / 0x1_0000 % 256;
    buf[off + 2] := v / 0x100 % 256;
    buf[off + 3] := v % 256;
    end := off + 4;
    assert buf[..off] == old(buf[..off]);
    assert buf[off..end] == EncodeU32(v);
    assert buf[..end] == buf[..off] + buf[off..end];
  }

  /** `memcpy` of a string, then its terminating NUL. */
  method PutText(buf: array<byte>, off: nat, s: CString) returns (end: nat)
    requires off + |s| + 1 <= buf.Length
    modifies buf
    ensures end == off + |s| + 1
    ensures buf[..end] == old(buf[..off]) + (s + [0])
    ensures forall j :: end <= j < buf.Length ==> buf[j] == old(buf[j])
  {
    var mid := Put(buf, off, s);
    end := Put(buf, mid, [0]);
  }

  lemma {:induction false} EncodeAppend(ps: seq<Part>, p: Part)
    ensures EncodeParts(ps + [p]) == EncodeParts(ps) + EncodePart(p)
  {
    if ps == [] {
      assert ps + [p] == [p];
      assert [p][1..] == [];
    } else {
      assert (ps + [p])[1..] == ps[1..] + [p];
      EncodeAppend(ps[1..], p);
    }
  }

  /** The first `j` components of `k` are in place. */
  ghost predicate Built(buf: array<byte>, off: nat, k: Key, j: nat)
    requires off <= buf.Length && j <= |Parts(k)|
    reads buf
  {
    buf[..off] == Prefix(k) + EncodeParts(Parts(k)[..j])
  }

  /** `append_prefix` */
  method Start(buf: array<byte>, k: Key) returns (off: nat)
    requires |Prefix(k)| <= buf.Length
    modifies buf
    ensures off == |Prefix(k)| && Built(buf, off, k, 0)
    ensures forall j :: off <= j < buf.Length ==> buf[j] == old(buf[j])
  {
    off := Put(buf, 0, Prefix(k));
    assert Parts(k)[..0] == [];
  }

  /** The next component, a number. */
  method PutNum(buf: array<byte>, off: nat, v: u32, ghost k: Key, ghost j: nat) returns (end: nat)
    requires off + 4 <= buf.Length && j < |Parts(k)| && Parts(k)[j] == Num(v) && Built(buf, off, k, j)
    modifies buf
    ensures end == off + 4 && Built(buf, end, k, j + 1)
    ensures forall i :: end <= i < buf.Length ==> buf[i] == old(buf[i])
  {
    end := PutU32(buf, off, v);
    EncodeNext(Prefix(k), Parts(k), j);
  }

  /** The next component, a string. */
  method PutString(buf: array<byte>, off: nat, s: CString, ghost k: Key, ghost j: nat) returns (end: nat)
    requires off + |s| + 1 <= buf.Length && j < |Parts(k)| && Parts(k)[j] == Text(s) && Built(buf, off, k, j)
    modifies buf
    ensures end == off + |s| + 1 && Built(buf, end, k, j + 1)
    ensures forall i :: end <= i < buf.Length ==> buf[i] == old(buf[i])
  {
    end := PutText(buf, off, s);
    EncodeNext(Prefix(k), Parts(k), j);
  }

  lemma EncodeNext(prefix: Bytes, ps: seq<Part>, j: nat)
    requires j < |ps|
    ensures prefix + EncodeParts(ps[..j + 1]) == prefix + EncodeParts(ps[..j]) + EncodePart(ps[j])
  {
    assert ps[..j + 1] == ps[..j] + [ps[j]];
    EncodeAppend(ps[..j], ps[j]);
  }

  /** `kv_warehouse_key` */
  method WarehouseKey(buf: array<byte>, w: u32) returns (len: nat)
    requires 11 <= buf.Length
    modifies buf
    ensures len == 11
    ensures buf[..len] == EncodeKey(Warehouse(w))
    ensures forall j :: len <= j < buf.Length ==> buf[j] == old(buf[j])
  {
    var k := Warehouse(w);
    var off := Start(buf, k);
    len := PutNum(buf, off, w, k, 0);
    assert Parts(k)[..|Parts(k)|] == Parts(k);
  }

  /** `kv_district_key` */
  method DistrictKey(buf: array<byte>, w: u32, d: u32) returns (len: nat)
    requires 15 <= buf.Length
    modifies buf
    ensures len == 15
    ensures buf[..len] == EncodeKey(District(w, d))
    ensures forall j :: len <= j < buf.Length ==> buf[j] == old(buf[j])
  {
    var k := District(w, d);
    var off := Start(buf, k);
    off := PutNum(buf, off, w, k, 0);
    len := PutNum(buf, off, d, k, 1);
    assert Parts(k)[..|Parts(k)|] == Parts(k);
  }

  /** `kv_customer_key` */
  method CustomerKey(buf: array<byte>, w: u32, d: u32, c: u32) returns (len: nat)
    requires 19 <= buf.Length
    modifies buf
    ensures len == 19
    ensures buf[..len] == EncodeKey(Customer(w, d, c))
    ensures forall j :: len <= j < buf.Length ==> buf[j] == old(buf[j])
  {
    var k := Customer(w, d, c);
    var off := Start(buf, k);
    off := PutNum(buf, off, w, k, 0);
    off := PutNum(buf, off, d, k, 1);
    len := PutNum(buf, off, c, k, 2);
    assert Parts(k)[..|Parts(k)|] == Parts(k);
  }

  /** `kv_customer_name_key`; the buffer must hold both strings, which the source does not check. */
  method CustomerNameKey(buf: array<byte>, w: u32, d: u32, last: CString, first: CString, c: u32) returns (len: nat)
    requires 22 + |last| + |first| <= buf.Length
    modifies buf
    ensures len == 22 + |last| + |first|
    ensures buf[..len] == EncodeKey(CustomerName(w, d, last, first, c))
    ensures forall j :: len <= j < buf.Length ==> buf[j] == old(buf[j])
  {
    var k := CustomerName(w, d, last, first, c);
    var off := Start(buf, k);
    off := PutNum(buf, off, w, k, 0);
    off := PutNum(buf, off, d, k, 1);
    off := PutString(buf, off, last, k, 2);
    off := PutString(buf, off, first, k, 3);
    len := PutNum(buf, off, c, k, 4);
    assert Parts(k)[..|Parts(k)|] == Parts(k);
  }

  /** `kv_item_key` */
  method ItemKey(buf: array<byte>, i: u32) returns (len: nat)
    requires 11 <= buf.Length
    modifies buf
    ensures len == 11
    ensures buf[..len] == EncodeKey(Item(i))
    ensures forall j :: len <= j < buf.Length ==> buf[j] == old(buf[j])
  {
    var k := Item(i);
    var off := Start(buf, k);
    len := PutNum(buf, off, i, k, 0);
    assert Parts(k)[..|Parts(k)|] == Parts(k);
  }

  /** `kv_stock_key` */
  method StockKey(buf: array<byte>, w: u32, i: u32) returns (len: nat)
    requires 15 <= buf.Length
    modifies buf
    ensures len == 15
    ensures buf[..len] == EncodeKey(Stock(w, i))
    ensures forall j :: len <= j < buf.Length ==> buf[j] == old(buf[j])
  {
    var k := Stock(w, i);
    var off := Start(buf, k);
    off := PutNum(buf, off, w, k, 0);
    len := PutNum(buf, off, i, k, 1);
    assert Parts(k)[..|Parts(k)|] == Parts(k);
  }

  /** `kv_oorder_key` */
  method OrderKey(buf: array<byte>, w: u32, d: u32, o: u32) returns (len: nat)
    requires 19 <= buf.Length
    modifies buf
    ensures len == 19
    ensures buf[..len] == EncodeKey(Order(w, d, o))
    ensures forall j :: len <= j < buf.Length ==> buf[j] == old(buf[j])
  {
    var k := Order(w, d, o);
    var off := Start(buf, k);
    off := PutNum(buf, off, w, k, 0);
    off := PutNum(buf, off, d, k, 1);
    len := PutNum(buf, off, o, k, 2);
    assert Parts(k)[..|Parts(k)|] == Parts(k);
  }

  /** `kv_new_order_key` */
  method NewOrderKey(buf: array<byte>, w: u32, d: u32, o: u32) returns (len: nat)
    requires 20 <= buf.Length
    modifies buf
    ensures len == 20
    ensures buf[..len] == EncodeKey(NewOrder(w, d, o))
    ensures forall j :: len <= j < buf.Length ==> buf[j] == old(buf[j])
  {
    var k := NewOrder(w, d, o);
    var off := Start(buf, k);
    off := PutNum(buf, off, w, k, 0);
    off := PutNum(buf, off, d, k, 1);
    len := PutNum(buf, off, o, k, 2);
    assert Parts(k)[..|Parts(k)|] == Parts(k);
  }

  /** `kv_order_line_key` */
  method OrderLineKey(buf: array<byte>, w: u32, d: u32, o: u32, number: u32) returns (len: nat)
    requires 24 <= buf.Length
    modifies buf
    ensures len == 24
    ensures buf[..len] == EncodeKey(OrderLine(w, d, o, number))
    ensures forall j :: len <= j < buf.Length ==> buf[j] == old(buf[j])
  {
    var k := OrderLine(w, d, o, number);
    var off := Start(buf, k);
    off := PutNum(buf, off, w, k, 0);
    off := PutNum(buf, off, d, k, 1);
    off := PutNum(buf, off, o, k, 2);
    len := PutNum(buf, off, number, k, 3);
    assert Parts(k)[..|Parts(k)|] == Parts(k);
  }

  /** `kv_next_o_id_key` */
  method NextOidKey(buf: array<byte>, w: u32, d: u32) returns (len: nat)
    requires 17 <= buf.Length
    modifies buf
    ensures len == 17
    ensures buf[..len] == EncodeKey(NextOid(w, d))
    ensures forall j :: len <= j < buf.Length ==> buf[j] == old(buf[j])
  {
    var k := NextOid(w, d);
    var off := Start(buf, k);
    off := PutNum(buf, off, w, k, 0);
    len := PutNum(buf, off, d, k, 1);
    assert Parts(k)[..|Parts(k)|] == Parts(k);
  }

  /** `kv_stock_range_begin` */
  method StockRangeBegin(buf: array<byte>, w: u32) returns (len: nat)
    requires 15 <= buf.Length
    modifies buf
    ensures len == 15
    ensures buf[..len] == EncodeKey(Stock(w, 0))
    ensures forall j :: len <= j < buf.Length ==> buf[j] == old(buf[j])
  {
    var k := Stock(w, 0);
    var off := Start(buf, k);
    off := PutNum(buf, off, w, k, 0);
    len := PutNum(buf, off, 0, k, 1);
    assert Parts(k)[..|Parts(k)|] == Parts(k);
  }

  /** `kv_stock_range_end` */
  method StockRangeEnd(buf: array<byte>, w: u32) returns (len: nat)
    requires 15 <= buf.Length
    modifies buf
    ensures len == 15
    ensures buf[..len] == EncodeKey(Stock(w, 0xFFFF_FFFF))
    ensures forall j :: len <= j < buf.Length ==> buf[j] == old(buf[j])
  {
    var k := Stock(w, 0xFFFF_FFFF);
    var off := Start(buf, k);
    off := PutNum(buf, off, w, k, 0);
    len := PutNum(buf, off, 0xFFFF_FFFF, k, 1);
    assert Parts(k)[..|Parts(k)|] == Parts(k);
  }

  /** the key that `on_customer_read` of the payment chain composes in place */
  method HistoryKey(buf: array<byte>, w: u32, cw: u32, cd: u32, c: u32, when: u32) returns (len: nat)
    requires 27 <= buf.Length
    modifies buf
    ensures len == 27
    ensures buf[..len] == EncodeKey(History(w, cw, cd, c, when))
    ensures forall j :: len <= j < buf.Length ==> buf[j] == old(buf[j])
  {
    var k := History(w, cw, cd, c, when);
    var off := Start(buf, k);
    off := PutNum(buf, off, w, k, 0);
    off := PutNum(buf, off, cw, k, 1);
    off := PutNum(buf, off, cd, k, 2);
    off := PutNum(buf, off, c, k, 3);
    len := PutNum(buf, off, when, k, 4);
    assert Parts(k)[..|Parts(k)|] == Parts(k);
  }

  /** `world_key` */
  method WorldKey(buf: array<byte>, id: u32) returns (len: nat)
    requires 10 <= buf.Length
    modifies buf
    ensures len == 10
    ensures buf[..len] == EncodeKey(World(id))
    ensures forall j :: len <= j < buf.Length ==> buf[j] == old(buf[j])
  {
    var k := World(id);
    var off := Start(buf, k);
    len := PutNum(buf, off, id, k, 0);
    assert Parts(k)[..|Parts(k)|] == Parts(k);
  }
}
