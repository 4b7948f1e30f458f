/** StockLevel: a range scan over the stock keys of one warehouse, and the loop that counts rows
    below a threshold. `fdb_async_get_range` passes selectors with `or_equal` 0 and offset 0 at both
    ends, which FoundationDB resolves to the last key before the given one. */
module StockLevel {
  import opened Words
  import opened Keyspace
  import opened Rows
  import opened Serial
  import opened FlatStore
  import opened Transactions

  datatype KeyValue = KeyValue(key: Bytes, value: Bytes)

  const NO_ITEM: u32 := 0xFFFF_FFFF

  function RangeBegin(w: u32): Bytes { EncodeKey(Stock(w, 0)) }

  function RangeEnd(w: u32): Bytes { EncodeKey(Stock(w, NO_ITEM)) }

  /** The test of the counting loop: long enough for a stock row, and its first field is low. */
  predicate Below(v: Bytes, threshold: i32)
  {
    |v| >= SIZEOF_STOCK && ReadI32(v, 0) < threshold
  }

  function CountBelow(kvs: seq<KeyValue>, threshold: i32): nat
  {
    if kvs == [] then 0
    else
      var n := |kvs| - 1;
      CountBelow(kvs[..n], threshold) + (if Below(kvs[n].value, threshold) then 1 else 0)
  }

  datatype Reply = Unavailable | BelowThreshold(count: nat)

  /** `stock_level_ctx_t` */
  class Context {
    const tr: Transaction
    const threshold: i32
    var live: bool

    constructor (t: Transaction, limit: i32)
      requires t.live
      ensures live && tr == t && threshold == limit
    {
      tr, threshold, live := t, limit, true;
    }

    /** `sl_on_range_read`: every path answers, and destroys the transaction and the context. */
    method OnRangeRead(failed: bool, kvs: seq<KeyValue>) returns (r: Reply)
      requires live && tr.live
      modifies `live, tr`live
      ensures !live && !tr.live
      ensures r == if failed then Unavailable else BelowThreshold(CountBelow(kvs, threshold))
    {
      if failed {
        r := Unavailable;
        tr.Destroy();
        live := false;
        return;
      }
      var below, i := 0, 0;
      while i < |kvs|
        invariant 0 <= i <= |kvs| && tr.live
        invariant below == CountBelow(kvs[..i], threshold)
      {
        assert kvs[..i + 1][..i] == kvs[..i];
        if |kvs[i].value| >= SIZEOF_STOCK {
          if ReadI32(kvs[i].value, 0) < threshold { below := below + 1; }
        }
        i := i + 1;
      }
      assert kvs[..|kvs|] == kvs;
      r := BelowThreshold(below);
      tr.Destroy();
      live := false;
    }
  }

  /* --- The intended interval --- */

  predicate InRange(w: u32, b: Bytes)
  {
    !Less(b, RangeBegin(w)) && Less(b, RangeEnd(w))
  }

  /** Among well-formed keys, the interval holds exactly the stock keys of the warehouse, short of
      the item id that marks its end. */
  lemma RangeIsStock(w: u32, k: Key)
    ensures InRange(w, EncodeKey(k)) <==> k.Stock? && k.w == w && k.i < NO_ITEM
  {
    var b, e := Stock(w, 0), Stock(w, NO_ITEM);
    KeyOrder(k, b);
    KeyOrder(k, e);
    if k.Stock? {
      StockOrder(k, b);
      StockOrder(k, e);
    } else {
      PrefixesDiverge(k, b);
      DivergeDiffers(Prefix(k), Prefix(b));
    }
  }

  lemma StockOrder(k: Key, l: Key)
    requires k.Stock? && l.Stock?
    ensures KeyLess(k, l) <==> k.w < l.w || (k.w == l.w && k.i < l.i)
  {
    var ps, qs := Parts(k), Parts(l);
    assert PartsLess(ps[1..], qs[1..]) <==> k.i < l.i by {
      assert ps[1..] == [Num(k.i)] && qs[1..] == [Num(l.i)];
      assert ps[1..][1..] == [] && qs[1..][1..] == [];
    }
  }

  /** The rows in the interval that the loop is meant to count. */
  function LowStock(f: Flat, w: u32, threshold: i32): set<Bytes>
  {
    set b | b in f && InRange(w, b) && Below(f[b], threshold)
  }

  /** In terms of the tables. */
  lemma LowStockIs(f: Flat, db: Db, w: u32, threshold: i32, k: Key)
    requires Represents(f, db)
    ensures EncodeKey(k) in LowStock(f, w, threshold) <==>
      k.Stock? && k.w == w && k.i < NO_ITEM && HasStock(db, k) && db[k].sQuantity < threshold
  {
    RangeIsStock(w, k);
    assert AgreeAt(f, db, k);
  }

  /* --- Byte order --- */

  lemma {:induction false} LessTransitive(a: Bytes, b: Bytes, c: Bytes)
    requires Less(a, b) && Less(b, c)
    ensures Less(a, c)
  {
    if a != [] && a[0] == b[0] == c[0] { LessTransitive(a[1..], b[1..], c[1..]); }
  }

  lemma {:induction false} LessTotal(a: Bytes, b: Bytes)
    ensures Less(a, b) || Less(b, a) || a == b
  {
    if a != [] && b != [] && a[0] == b[0] {
      LessTotal(a[1..], b[1..]);
      assert a == [a[0]] + a[1..] && b == [b[0]] + b[1..];
    }
  }

  /** `a <= b < c` gives `a < c`, and `a < b <= c` gives `a < c`. */
  lemma LessEither(a: Bytes, b: Bytes, c: Bytes)
    ensures !Less(b, a) && Less(b, c) ==> Less(a, c)
    ensures Less(a, b) && !Less(c, b) ==> Less(a, c)
    ensures !(Less(a, b) && Less(b, a))
  {
    LessTotal(a, b);
    LessTotal(b, c);
    if Less(a, b) && Less(b, c) { LessTransitive(a, b, c); }
    LessIrreflexive(a);
    if Less(a, b) && Less(b, a) { LessTransitive(a, b, a); }
  }

  /* --- The scan as it is asked for --- */

  ghost predicate IsLastBefore(f: Flat, b: Bytes, y: Bytes)
  {
    y in f && Less(y, b) && forall x :: x in f && Less(x, b) ==> !Less(y, x)
  }

  /** The selector `(b, or_equal 0, offset 0)`. */
  ghost function LastBefore(f: Flat, b: Bytes): Option<Bytes>
  {
    if exists y :: IsLastBefore(f, b, y) then var y :| IsLastBefore(f, b, y); Some(y) else None
  }

  lemma {:induction false} MaximumExists(s: set<Bytes>, x: Bytes) returns (y: Bytes)
    requires x in s
    ensures y in s && forall z :: z in s ==> !Less(y, z)
    decreases |s|
  {
    if s == {x} {
      y := x;
      LessIrreflexive(x);
    } else {
      var rest := s - {x};
      assert |rest| < |s|;
      assert rest != {} by { assert s == rest + {x}; }
      var x' :| x' in rest;
      var m := MaximumExists(rest, x');
      y := if Less(m, x) then x else m;
      forall z | z in s ensures !Less(y, z) {
        LessIrreflexive(x);
        if z != x { LessEither(m, x, z); LessEither(x, m, z); }
      }
    }
  }

  lemma LastBeforeFound(f: Flat, b: Bytes, x: Bytes)
    requires x in f && Less(x, b)
    ensures LastBefore(f, b).Some?
  {
    var y := MaximumExists((set z | z in f && Less(z, b)), x);
    assert IsLastBefore(f, b, y);
  }

  /** The keys between the two resolved selectors, the first included, the second not. */
  ghost predicate Scanned(f: Flat, b: Bytes, e: Bytes, k: Bytes)
  {
    && k in f
    && (LastBefore(f, b).Some? ==> !Less(k, LastBefore(f, b).value))
    && LastBefore(f, e).Some? && Less(k, LastBefore(f, e).value)
  }

  ghost predicate NonEmpty(f: Flat, b: Bytes, e: Bytes)
  {
    exists x :: x in f && !Less(x, b) && Less(x, e)
  }

  lemma ScannedForward(f: Flat, b: Bytes, e: Bytes, k: Bytes)
    requires Scanned(f, b, e, k)
    ensures Less(k, e) && LastBefore(f, e) != Some(k)
    ensures Less(k, b) ==> LastBefore(f, b) == Some(k) && NonEmpty(f, b, e)
  {
    var q := LastBefore(f, e).value;
    LessEither(k, q, e);
    LessTransitive(k, q, e);
    LessIrreflexive(k);
    if Less(k, b) {
      LastBeforeFound(f, b, k);
      var p := LastBefore(f, b).value;
      LessTotal(k, p);
      if Less(q, b) { LessEither(k, q, p); }
    }
  }

  lemma ScannedBackward(f: Flat, b: Bytes, e: Bytes, k: Bytes)
    requires k in f
    requires (!Less(k, b) && Less(k, e) && LastBefore(f, e) != Some(k))
          || (LastBefore(f, b) == Some(k) && NonEmpty(f, b, e))
    ensures Scanned(f, b, e, k)
  {
    if !Less(k, b) && Less(k, e) && LastBefore(f, e) != Some(k) {
      LastBeforeFound(f, e, k);
      LessTotal(k, LastBefore(f, e).value);
      if LastBefore(f, b).Some? { LessEither(LastBefore(f, b).value, b, k); LessEither(LastBefore(f, b).value, k, k); }
    } else {
      var x :| x in f && !Less(x, b) && Less(x, e);
      LastBeforeFound(f, e, x);
      LessIrreflexive(k);
      LessEither(k, b, x);
      LessEither(k, x, LastBefore(f, e).value);
    }
  }

  /** The scan starts one existing key before the interval and stops short of its highest key;
      when the interval is empty it returns nothing. */
  lemma ScanIs(f: Flat, b: Bytes, e: Bytes, k: Bytes)
    requires k in f
    ensures Scanned(f, b, e, k) <==>
      || (!Less(k, b) && Less(k, e) && LastBefore(f, e) != Some(k))
      || (LastBefore(f, b) == Some(k) && NonEmpty(f, b, e))
  {
    if Scanned(f, b, e, k) { ScannedForward(f, b, e, k); }
    if (!Less(k, b) && Less(k, e) && LastBefore(f, e) != Some(k))
      || (LastBefore(f, b) == Some(k) && NonEmpty(f, b, e)) {
      ScannedBackward(f, b, e, k);
    }
  }

  /** A complete answer to the range read: the scanned keys in order, with their values. */
  ghost predicate Answers(f: Flat, b: Bytes, e: Bytes, kvs: seq<KeyValue>)
  {
    && Ascending(kvs)
    && (forall i :: 0 <= i < |kvs| ==> Scanned(f, b, e, kvs[i].key) && kvs[i].value == f[kvs[i].key])
    && (forall k :: Scanned(f, b, e, k) ==> HasKey(kvs, k))
  }

  predicate HasKey(kvs: seq<KeyValue>, k: Bytes)
  {
    exists i :: 0 <= i < |kvs| && kvs[i].key == k
  }

  function LowKeys(kvs: seq<KeyValue>, threshold: i32): set<Bytes>
  {
    if kvs == [] then {}
    else
      var n := |kvs| - 1;
      LowKeys(kvs[..n], threshold) + (if Below(kvs[n].value, threshold) then {kvs[n].key} else {})
  }

  ghost predicate Ascending(kvs: seq<KeyValue>)
  {
    forall i, j :: 0 <= i < j < |kvs| ==> Less(kvs[i].key, kvs[j].key)
  }

  lemma {:induction false} LowKeysAre(kvs: seq<KeyValue>, threshold: i32, k: Bytes)
    ensures k in LowKeys(kvs, threshold) <==>
      exists i :: 0 <= i < |kvs| && kvs[i].key == k && Below(kvs[i].value, threshold)
  {
    if kvs != [] {
      var n := |kvs| - 1;
      LowKeysAre(kvs[..n], threshold, k);
      if k in LowKeys(kvs[..n], threshold) {
        var i :| 0 <= i < n && kvs[..n][i].key == k && Below(kvs[..n][i].value, threshold);
        assert kvs[i] == kvs[..n][i];
      }
      if i :| 0 <= i < |kvs| && kvs[i].key == k && Below(kvs[i].value, threshold) {
        if i < n { assert kvs[..n][i] == kvs[i]; }
      }
    }
  }

  /** The counter is the number of low keys, since no key comes twice. */
  lemma {:induction false} CountIsCard(kvs: seq<KeyValue>, threshold: i32)
    requires Ascending(kvs)
    ensures CountBelow(kvs, threshold) == |LowKeys(kvs, threshold)|
  {
    if kvs != [] {
      var n := |kvs| - 1;
      CountIsCard(kvs[..n], threshold);
      LowKeysAre(kvs[..n], threshold, kvs[n].key);
      LessIrreflexive(kvs[n].key);
    }
  }

  /** The low keys of a complete answer are the low keys of the interval, without its highest
      key and with the key before it. */
  lemma AnswerLowKeys(f: Flat, b: Bytes, e: Bytes, kvs: seq<KeyValue>, threshold: i32, k: Bytes)
    requires Answers(f, b, e, kvs)
    ensures k in LowKeys(kvs, threshold) <==> Scanned(f, b, e, k) && Below(f[k], threshold)
  {
    LowKeysAre(kvs, threshold, k);
    if Scanned(f, b, e, k) {
      assert HasKey(kvs, k);
    }
  }

  ghost predicate LowAt(f: Flat, p: Option<Bytes>, threshold: i32)
  {
    p.Some? && p.value in f && Below(f[p.value], threshold)
  }

  /** What StockLevel answers, for every store and warehouse: the number of low stock rows in the
      interval, less one if the highest of them is low, plus one if the key before the interval
      holds a value that passes the length test and reads as low. */
  lemma StockLevelCounts(f: Flat, w: u32, kvs: seq<KeyValue>, threshold: i32)
    requires Answers(f, RangeBegin(w), RangeEnd(w), kvs)
    ensures var b, e := RangeBegin(w), RangeEnd(w);
      CountBelow(kvs, threshold) ==
        if !NonEmpty(f, b, e) then 0
        else |LowStock(f, w, threshold)|
             - (if LowAt(f, LastBefore(f, e), threshold) then 1 else 0)
             + (if LowAt(f, LastBefore(f, b), threshold) then 1 else 0)
  {
    var b, e := RangeBegin(w), RangeEnd(w);
    CountIsCard(kvs, threshold);
    if !NonEmpty(f, b, e) {
      forall k ensures k !in LowKeys(kvs, threshold) {
        AnswerLowKeys(f, b, e, kvs, threshold, k);
        if Scanned(f, b, e, k) { ScanIs(f, b, e, k); }
      }
      assert LowKeys(kvs, threshold) == {};
    } else {
      EndsOfRange(f, w);
      LowKeysShift(f, w, kvs, threshold);
      ShiftedCard(LowStock(f, w, threshold), LowOnly(f, LastBefore(f, e), threshold),
                  LowOnly(f, LastBefore(f, b), threshold));
    }
  }

  ghost function LowOnly(f: Flat, p: Option<Bytes>, threshold: i32): set<Bytes>
  {
    if LowAt(f, p, threshold) then {p.value} else {}
  }

  lemma LowKeysShift(f: Flat, w: u32, kvs: seq<KeyValue>, threshold: i32)
    requires Answers(f, RangeBegin(w), RangeEnd(w), kvs) && NonEmpty(f, RangeBegin(w), RangeEnd(w))
    ensures LowKeys(kvs, threshold)
         == LowStock(f, w, threshold) - LowOnly(f, LastBefore(f, RangeEnd(w)), threshold)
            + LowOnly(f, LastBefore(f, RangeBegin(w)), threshold)
  {
    var b, e := RangeBegin(w), RangeEnd(w);
    forall k
      ensures k in LowKeys(kvs, threshold) <==>
        k in LowStock(f, w, threshold) - LowOnly(f, LastBefore(f, e), threshold)
             + LowOnly(f, LastBefore(f, b), threshold)
    {
      AnswerLowKeys(f, b, e, kvs, threshold, k);
      if k in f { ScanIs(f, b, e, k); }
    }
  }

  lemma ShiftedCard(all: set<Bytes>, minus: set<Bytes>, plus: set<Bytes>)
    requires minus <= all && plus !! all
    ensures |all - minus + plus| == |all| - |minus| + |plus|
  {
    assert |all - minus| == |all| - |minus|;
  }

  /** The highest key before the end of a non-empty interval lies inside it; the key before its
      beginning does not. */
  lemma EndsOfRange(f: Flat, w: u32)
    requires NonEmpty(f, RangeBegin(w), RangeEnd(w))
    ensures LastBefore(f, RangeEnd(w)).Some? && InRange(w, LastBefore(f, RangeEnd(w)).value)
    ensures LastBefore(f, RangeBegin(w)).Some? ==> !InRange(w, LastBefore(f, RangeBegin(w)).value)
  {
    var b, e := RangeBegin(w), RangeEnd(w);
    var x :| x in f && !Less(x, b) && Less(x, e);
    LastBeforeFound(f, e, x);
    LessEither(x, LastBefore(f, e).value, b);
  }

  /** On bytes: the count is right exactly when the two ends of the scan cancel out. */
  lemma ByteCountRight(f: Flat, w: u32, kvs: seq<KeyValue>, threshold: i32)
    requires Answers(f, RangeBegin(w), RangeEnd(w), kvs)
    ensures var b, e := RangeBegin(w), RangeEnd(w);
      CountBelow(kvs, threshold) == |LowStock(f, w, threshold)| <==>
        !NonEmpty(f, b, e) || (LowAt(f, LastBefore(f, e), threshold) <==> LowAt(f, LastBefore(f, b), threshold))
  {
    StockLevelCounts(f, w, kvs, threshold);
    if !NonEmpty(f, RangeBegin(w), RangeEnd(w)) {
      assert LowStock(f, w, threshold) == {};
    }
  }

  /* --- The same on rows --- */

  ghost predicate IsKey(b: Bytes)
  {
    exists k: Key :: EncodeKey(k) == b
  }

  /** Nothing but keys of the builders is in the store. */
  ghost predicate WellFormed(f: Flat)
  {
    forall b :: b in f ==> IsKey(b)
  }

  /** The stock rows of the warehouse below the threshold. */
  function LowRows(db: Db, w: u32, threshold: i32): set<Key>
  {
    set k | k in db && k.Stock? && k.w == w && k.i < NO_ITEM && HasStock(db, k) && db[k].sQuantity < threshold
  }

  lemma {:induction false} EncodedCard(ks: set<Key>)
    ensures |EncodeKeys(ks)| == |ks|
  {
    if ks != {} {
      var k :| k in ks;
      var rest := ks - {k};
      EncodedCard(rest);
      assert EncodeKey(k) !in EncodeKeys(rest) by {
        if EncodeKey(k) in EncodeKeys(rest) {
          var l :| l in rest && EncodeKey(l) == EncodeKey(k);
          KeyInjective(k, l);
        }
      }
      assert EncodeKeys(ks) == EncodeKeys(rest) + {EncodeKey(k)};
    }
  }

  /** In a well-formed store the low keys are as many as the low rows. */
  lemma LowStockCard(f: Flat, db: Db, w: u32, threshold: i32)
    requires Represents(f, db) && WellFormed(f)
    ensures |LowStock(f, w, threshold)| == |LowRows(db, w, threshold)|
  {
    forall b ensures b in LowStock(f, w, threshold) <==> b in EncodeKeys(LowRows(db, w, threshold)) {
      if b in LowStock(f, w, threshold) {
        assert IsKey(b);
        var k: Key :| EncodeKey(k) == b;
        LowStockIs(f, db, w, threshold, k);
      }
      if b in EncodeKeys(LowRows(db, w, threshold)) {
        var k :| k in LowRows(db, w, threshold) && EncodeKey(k) == b;
        LowStockIs(f, db, w, threshold, k);
      }
    }
    assert LowStock(f, w, threshold) == EncodeKeys(LowRows(db, w, threshold));
    EncodedCard(LowRows(db, w, threshold));
  }

  predicate InStock(db: Db, w: u32, i: u32) { i < NO_ITEM && Stock(w, i) in db }

  ghost predicate SomeStock(db: Db, w: u32)
  {
    exists i: u32 :: InStock(db, w, i)
  }

  /** The highest item of the warehouse is below the threshold. */
  ghost predicate HighestIsLow(db: Db, w: u32, threshold: i32)
  {
    exists i: u32 :: IsHighest(db, w, i) && Stock(w, i) in LowRows(db, w, threshold)
  }

  ghost predicate IsHighest(db: Db, w: u32, i: u32)
  {
    InStock(db, w, i) && forall j: u32 :: InStock(db, w, j) ==> j <= i
  }

  /** A key in the interval is a stock row of the warehouse. */
  lemma RangeRow(f: Flat, db: Db, w: u32, b: Bytes) returns (i: u32)
    requires Represents(f, db) && WellFormed(f) && b in f && InRange(w, b)
    ensures InStock(db, w, i) && EncodeKey(Stock(w, i)) == b
  {
    assert IsKey(b);
    var k: Key :| EncodeKey(k) == b;
    RangeIsStock(w, k);
    assert AgreeAt(f, db, k);
    i := k.i;
  }

  lemma RowInRange(f: Flat, db: Db, w: u32, i: u32)
    requires Represents(f, db) && InStock(db, w, i)
    ensures EncodeKey(Stock(w, i)) in f && InRange(w, EncodeKey(Stock(w, i)))
  {
    RangeIsStock(w, Stock(w, i));
    assert AgreeAt(f, db, Stock(w, i));
  }

  lemma NonEmptyIs(f: Flat, db: Db, w: u32)
    requires Represents(f, db) && WellFormed(f)
    ensures NonEmpty(f, RangeBegin(w), RangeEnd(w)) <==> SomeStock(db, w)
  {
    if NonEmpty(f, RangeBegin(w), RangeEnd(w)) {
      var x :| x in f && !Less(x, RangeBegin(w)) && Less(x, RangeEnd(w));
      var i := RangeRow(f, db, w, x);
      assert InStock(db, w, i);
    }
    if SomeStock(db, w) {
      var i: u32 :| InStock(db, w, i);
      RowInRange(f, db, w, i);
    }
  }

  lemma HighestItem(f: Flat, db: Db, w: u32) returns (i: u32)
    requires Represents(f, db) && WellFormed(f) && SomeStock(db, w)
    ensures IsHighest(db, w, i) && LastBefore(f, RangeEnd(w)) == Some(EncodeKey(Stock(w, i)))
  {
    NonEmptyIs(f, db, w);
    EndsOfRange(f, w);
    var y := LastBefore(f, RangeEnd(w)).value;
    assert IsLastBefore(f, RangeEnd(w), y);
    i := RangeRow(f, db, w, y);
    forall j: u32 | InStock(db, w, j) ensures j <= i {
      RowInRange(f, db, w, j);
      KeyOrder(Stock(w, i), Stock(w, j));
      StockOrder(Stock(w, i), Stock(w, j));
    }
  }

  lemma HighestIs(f: Flat, db: Db, w: u32, threshold: i32)
    requires Represents(f, db) && WellFormed(f) && SomeStock(db, w)
    ensures LowAt(f, LastBefore(f, RangeEnd(w)), threshold) <==> HighestIsLow(db, w, threshold)
  {
    var i := HighestItem(f, db, w);
    RowInRange(f, db, w, i);
    LowStockIs(f, db, w, threshold, Stock(w, i));
    if HighestIsLow(db, w, threshold) {
      var j: u32 :| IsHighest(db, w, j) && Stock(w, j) in LowRows(db, w, threshold);
      assert i == j;
    }
  }

  /** Main result: over a store of well-formed keys, StockLevel answers with the number of stock rows
      of the warehouse below the threshold if and only if the warehouse has none at all, or its
      highest item is low exactly when the key before its stock passes for a low row. */
  lemma StockLevelRight(f: Flat, db: Db, w: u32, kvs: seq<KeyValue>, threshold: i32)
    requires Represents(f, db) && WellFormed(f)
    requires Answers(f, RangeBegin(w), RangeEnd(w), kvs)
    ensures CountBelow(kvs, threshold) == |LowRows(db, w, threshold)| <==>
      || !SomeStock(db, w)
      || (HighestIsLow(db, w, threshold) <==> LowAt(f, LastBefore(f, RangeBegin(w)), threshold))
  {
    ByteCountRight(f, w, kvs, threshold);
    LowStockCard(f, db, w, threshold);
    NonEmptyIs(f, db, w);
    if SomeStock(db, w) { HighestIs(f, db, w, threshold); }
  }

  /** A warehouse with a single item, low on stock, in a store that holds nothing else: the scan
      returns nothing. */
  lemma MissesTheOnlyItem(w: u32, i: u32, quantity: i32, threshold: i32)
    requires i < NO_ITEM && quantity < threshold
    ensures var f: Flat := map[EncodeKey(Stock(w, i)) := EncodeRow(StockRow(quantity, 0, 0))];
      Answers(f, RangeBegin(w), RangeEnd(w), []) && |LowStock(f, w, threshold)| == 1
  {
    var key, row := EncodeKey(Stock(w, i)), StockRow(quantity, 0, 0);
    var f: Flat := map[key := EncodeRow(row)];
    RangeIsStock(w, Stock(w, i));
    RowRoundTrip(Stock(w, i), row);
    assert LowStock(f, w, threshold) == {key};
    EndsOfRange(f, w);
    forall k ensures !Scanned(f, RangeBegin(w), RangeEnd(w), k) {
      if k in f { ScanIs(f, RangeBegin(w), RangeEnd(w), k); }
    }
  }

  /** The handler ignores `more`: a truncated answer can only lower the count. */
  lemma {:induction false} TruncationLowers(kvs: seq<KeyValue>, n: nat, threshold: i32)
    requires n <= |kvs|
    ensures CountBelow(kvs[..n], threshold) <= CountBelow(kvs, threshold)
  {
    if n < |kvs| {
      assert kvs[..|kvs| - 1][..n] == kvs[..n];
      TruncationLowers(kvs[..|kvs| - 1], n, threshold);
    } else {
      assert kvs[..n] == kvs;
    }
  }
}
