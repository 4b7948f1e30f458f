/** The ordered byte keyspace of `tpcc_kv.c`: twelve key builders over one flat
    key space, compared byte by byte as FoundationDB compares keys. */
module Keyspace {
  import opened Words

  /** Byte-lexicographic order (unsigned bytes, a proper prefix is smaller). */
  predicate Less(a: Bytes, b: Bytes)
    decreases |a|
  {
    && b != []
    && (a == [] || a[0] < b[0] || (a[0] == b[0] && Less(a[1..], b[1..])))
  }

  /** The two strings differ at a position that both have. */
  predicate Diverge(a: Bytes, b: Bytes)
    decreases |a|
  {
    a != [] && b != [] && (a[0] != b[0] || Diverge(a[1..], b[1..]))
  }

  /* --- Integer codecs --- */

  function EncodeU32(v: u32): (r: Bytes)
    ensures |r| == 4
  {
    [v / 0x100_0000 % 256, v / 0x1_0000 % 256, v / 0x100 % 256, v % 256]
  }

  function DecodeU32(b: Bytes): u32
    requires |b| == 4
  {
    b[0] as int * 0x100_0000 + b[1] as int * 0x1_0000 + b[2] as int * 0x100 + b[3]
  }

  lemma U32RoundTrip(v: u32)
    ensures DecodeU32(EncodeU32(v)) == v
  {
    LowDigits(v);
  }

  /** Big-endian encoding makes byte order agree with numeric order. */
  lemma U32Order(v: u32, u: u32)
    ensures Less(EncodeU32(v), EncodeU32(u)) <==> v < u
    ensures v != u ==> Diverge(EncodeU32(v), EncodeU32(u))
  {
    U32RoundTrip(v);
    U32RoundTrip(u);
    LessByFour(EncodeU32(v), EncodeU32(u));
  }

  predicate LessFour(a: Bytes, b: Bytes)
    requires |a| == |b| == 4
  {
    || a[0] < b[0]
    || (a[0] == b[0] && (a[1] < b[1] || (a[1] == b[1] && (a[2] < b[2] || (a[2] == b[2] && a[3] < b[3])))))
  }

  lemma LessByFour(a: Bytes, b: Bytes)
    requires |a| == |b| == 4
    ensures Less(a, b) <==> LessFour(a, b)
    ensures a != b ==> Diverge(a, b)
  {
    var a1, b1 := a[1..], b[1..];
    var a2, b2 := a1[1..], b1[1..];
    var a3, b3 := a2[1..], b2[1..];
    assert a1[0] == a[1] && b1[0] == b[1] && a2[0] == a[2] && b2[0] == b[2] && a3[0] == a[3] && b3[0] == b[3];
    assert Less(a3, b3) <==> a[3] < b[3] by { assert a3[1..] == [] && b3[1..] == []; }
    assert Less(a2, b2) <==> a[2] < b[2] || (a[2] == b[2] && a[3] < b[3]);
    assert a[3] != b[3] ==> Diverge(a3, b3);
    assert a[2] != b[2] || a[3] != b[3] ==> Diverge(a2, b2);
    assert a[1] != b[1] || a[2] != b[2] || a[3] != b[3] ==> Diverge(a1, b1);
    assert a[0] == b[0] && a[1] == b[1] && a[2] == b[2] && a[3] == b[3] ==> a == b;
  }

  /** `kv_encode_next_o_id`: the sign-extended 64-bit value, most significant byte first. */
  function EncodeNextOid(n: i32): (r: Bytes)
    ensures |r| == 8
  {
    [n / 0x100_0000_0000_0000 % 256, n / 0x1_0000_0000_0000 % 256,
     n / 0x100_0000_0000 % 256, n / 0x1_0000_0000 % 256,
     n / 0x100_0000 % 256, n / 0x1_0000 % 256, n / 0x100 % 256, n % 256]
  }

  /** `kv_decode_next_o_id`: a short value decodes to 0, anything else keeps its low 32 bits. */
  function DecodeNextOid(b: Bytes): i32
  {
    if |b| < 8 then 0 else
    I32(b[0] as int * 0x100_0000_0000_0000 + b[1] as int * 0x1_0000_0000_0000
        + b[2] as int * 0x100_0000_0000 + b[3] as int * 0x1_0000_0000
        + b[4] as int * 0x100_0000 + b[5] as int * 0x1_0000 + b[6] as int * 0x100 + b[7])
  }

  /** Every int32, negative ones included, survives the 8-byte counter encoding. */
  lemma NextOidRoundTrip(n: i32)
    ensures DecodeNextOid(EncodeNextOid(n)) == n
  {
    DecodeHalves(EncodeNextOid(n));
    LowHalf(n);
    SignBack(n);
  }

  /** The number that bytes spell, most significant first. */
  function FromBE(b: Bytes): nat
  {
    if b == [] then 0 else 256 * FromBE(b[..|b| - 1]) + b[|b| - 1]
  }

  /** `n` in base 256, `len` digits. */
  function Digits(n: int, len: nat): (b: Bytes)
    ensures |b| == len
    decreases len
  {
    if len == 0 then [] else Digits(n / 256, len - 1) + [n % 256]
  }

  lemma {:induction false} DigitsSpell(n: int, len: nat)
    ensures FromBE(Digits(n, len)) == n % Pow256(len)
    decreases len
  {
    if len > 0 {
      DigitsSpell(n / 256, len - 1);
      assert Digits(n, len)[..len - 1] == Digits(n / 256, len - 1);
      DigitStep(n, Pow256(len - 1));
    }
  }

  /** All eight bytes of the counter, the sign extension included: they spell the two's complement. */
  lemma NextOidSpells(n: i32)
    ensures FromBE(EncodeNextOid(n)) == n % TWO64
  {
    EightDigits(n);
    DigitsSpell(n, 8);
    PowersOf256();
  }

  lemma EightDigits(n: i32)
    ensures EncodeNextOid(n) == Digits(n, 8)
  {
    var a, b, c := n / 256, n / 0x1_0000, n / 0x100_0000;
    var d, e, f, g := n / TWO32, n / 0x100_0000_0000, n / 0x1_0000_0000_0000, n / 0x100_0000_0000_0000;
    assert b == a / 256 && c == b / 256 && d == c / 256 && e == d / 256 && f == e / 256 && g == f / 256;
    assert Digits(g, 1) == [g % 256];
    assert Digits(f, 2) == [g % 256, f % 256];
    assert Digits(e, 3) == [g % 256, f % 256, e % 256];
    assert Digits(d, 4) == [g % 256, f % 256, e % 256, d % 256];
    assert Digits(c, 5) == [g % 256, f % 256, e % 256, d % 256, c % 256];
    assert Digits(b, 6) == [g % 256, f % 256, e % 256, d % 256, c % 256, b % 256];
    assert Digits(a, 7) == [g % 256, f % 256, e % 256, d % 256, c % 256, b % 256, a % 256];
  }

  lemma LowHalf(n: i32)
    ensures DecodeU32(EncodeNextOid(n)[4..]) == n % TWO32
  {
    LowDigits(n);
    assert EncodeNextOid(n)[4..] == [n / 0x100_0000 % 256, n / 0x1_0000 % 256, n / 0x100 % 256, n % 256];
  }

  lemma SignBack(n: i32)
    ensures I32(n % TWO32) == n
  {
    assert n % TWO32 == n || n % TWO32 == n + TWO32;
  }

  lemma DecodeHalves(b: Bytes)
    requires |b| == 8
    ensures DecodeNextOid(b) == I32(DecodeU32(b[4..]))
  {
    var high: int, low: int := DecodeU32(b[..4]), DecodeU32(b[4..]);
    assert DecodeNextOid(b) == I32(low + high * TWO32);
    ModShift(low + 0x8000_0000, high, TWO32);
  }

  /** The four low base-256 digits of any integer spell its remainder modulo 2^32. */
  lemma LowDigits(n: int)
    ensures n / 0x100_0000 % 256 * 0x100_0000 + n / 0x1_0000 % 256 * 0x1_0000 + n / 0x100 % 256 * 0x100 + n % 256
         == n % TWO32
  {
    var a, b, c, d := n / 0x100, n / 0x1_0000, n / 0x100_0000, n / TWO32;
    assert n == a * 256 + n % 256;
    assert a == b * 256 + a % 256;
    assert b == c * 256 + b % 256;
    assert c == d * 256 + c % 256;
  }

  /* --- Keys --- */

  /** A C string: the bytes before the terminating NUL. */
  type CString = s: Bytes | 0 !in s

  datatype Part = Num(n: u32) | Text(s: CString)

  datatype Key =
    | Warehouse(w: u32)
    | District(w: u32, d: u32)
    | Customer(w: u32, d: u32, c: u32)
    | CustomerName(w: u32, d: u32, last: CString, first: CString, c: u32)
    | History(w: u32, cw: u32, cd: u32, c: u32, when: u32)
    | Item(i: u32)
    | Stock(w: u32, i: u32)
    | Order(w: u32, d: u32, o: u32)
    | NewOrder(w: u32, d: u32, o: u32)
    | OrderLine(w: u32, d: u32, o: u32, number: u32)
    | NextOid(w: u32, d: u32)
    | World(i: u32)

  const TPCC: Bytes := [0x74, 0x70, 0x63, 0x63, 0x2F]

  /** The subspace prefixes `SS_*` and `TFB_WORLD_PREFIX`, in ASCII. */
  function Prefix(k: Key): Bytes
  {
    match k
    case Warehouse(_) => [0x74, 0x70, 0x63, 0x63, 0x2F, 0x77, 0x2F]            // tpcc/w/
    case District(_, _) => [0x74, 0x70, 0x63, 0x63, 0x2F, 0x64, 0x2F]          // tpcc/d/
    case Customer(_, _, _) => [0x74, 0x70, 0x63, 0x63, 0x2F, 0x63, 0x2F]       // tpcc/c/
    case CustomerName(_, _, _, _, _) =>
      [0x74, 0x70, 0x63, 0x63, 0x2F, 0x63, 0x6E, 0x2F]                         // tpcc/cn/
    case History(_, _, _, _, _) => [0x74, 0x70, 0x63, 0x63, 0x2F, 0x68, 0x2F]  // tpcc/h/
    case Item(_) => [0x74, 0x70, 0x63, 0x63, 0x2F, 0x69, 0x2F]                 // tpcc/i/
    case Stock(_, _) => [0x74, 0x70, 0x63, 0x63, 0x2F, 0x73, 0x2F]             // tpcc/s/
    case Order(_, _, _) => [0x74, 0x70, 0x63, 0x63, 0x2F, 0x6F, 0x2F]          // tpcc/o/
    case NewOrder(_, _, _) => [0x74, 0x70, 0x63, 0x63, 0x2F, 0x6E, 0x6F, 0x2F] // tpcc/no/
    case OrderLine(_, _, _, _) =>
      [0x74, 0x70, 0x63, 0x63, 0x2F, 0x6F, 0x6C, 0x2F]                         // tpcc/ol/
    case NextOid(_, _) =>
      [0x74, 0x70, 0x63, 0x63, 0x2F, 0x6E, 0x69, 0x64, 0x2F]                   // tpcc/nid/
    case World(_) => [0x74, 0x66, 0x62, 0x2F, 0x77, 0x2F]                      // tfb/w/
  }

  /** The components of a key, in the order the builder appends them. */
  function Parts(k: Key): seq<Part>
  {
    match k
    case Warehouse(w) => [Num(w)]
    case District(w, d) => [Num(w), Num(d)]
    case Customer(w, d, c) => [Num(w), Num(d), Num(c)]
    case CustomerName(w, d, last, first, c) => [Num(w), Num(d), Text(last), Text(first), Num(c)]
    case History(w, cw, cd, c, when) => [Num(w), Num(cw), Num(cd), Num(c), Num(when)]
    case Item(i) => [Num(i)]
    case Stock(w, i) => [Num(w), Num(i)]
    case Order(w, d, o) => [Num(w), Num(d), Num(o)]
    case NewOrder(w, d, o) => [Num(w), Num(d), Num(o)]
    case OrderLine(w, d, o, number) => [Num(w), Num(d), Num(o), Num(number)]
    case NextOid(w, d) => [Num(w), Num(d)]
    case World(i) => [Num(i)]
  }

  function EncodePart(p: Part): Bytes
  {
    match p
    case Num(n) => EncodeU32(n)
    case Text(s) => s + [0]
  }

  function EncodeParts(ps: seq<Part>): Bytes
  {
    if ps == [] then [] else EncodePart(ps[0]) + EncodeParts(ps[1..])
  }

  function EncodeKey(k: Key): Bytes
  {
    Prefix(k) + EncodeParts(Parts(k))
  }

  predicate PartLess(p: Part, q: Part)
  {
    match (p, q)
    case (Num(n), Num(m)) => n < m
    case (Text(s), Text(t)) => Less(s, t)
    case (Num(_), Text(_)) => true
    case (Text(_), Num(_)) => false
  }

  /** Lexicographic order of component tuples. */
  predicate PartsLess(ps: seq<Part>, qs: seq<Part>)
    decreases |ps|
  {
    && qs != []
    && (ps == [] || PartLess(ps[0], qs[0]) || (ps[0] == qs[0] && PartsLess(ps[1..], qs[1..])))
  }

  /** Keys of one subspace compare by their components; subspaces compare by prefix. */
  predicate KeyLess(k: Key, l: Key)
  {
    if Prefix(k) == Prefix(l) then PartsLess(Parts(k), Parts(l)) else Less(Prefix(k), Prefix(l))
  }

  predicate SameShape(ps: seq<Part>, qs: seq<Part>)
  {
    |ps| == |qs| && forall i :: 0 <= i < |ps| ==> ps[i].Num? == qs[i].Num?
  }

  /* --- Order and injectivity --- */

  lemma {:induction false} LessPrefix(p: Bytes, x: Bytes, y: Bytes)
    ensures Less(p + x, p + y) <==> Less(x, y)
  {
    if p == [] {
      assert p + x == x && p + y == y;
    } else {
      assert (p + x)[1..] == p[1..] + x && (p + y)[1..] == p[1..] + y;
      LessPrefix(p[1..], x, y);
    }
  }

  /** Once two strings diverge, nothing appended to them matters. */
  lemma {:induction false} LessDiverge(a: Bytes, b: Bytes, x: Bytes, y: Bytes)
    requires Diverge(a, b)
    ensures Less(a + x, b + y) <==> Less(a, b)
    ensures a + x != b + y
  {
    if a[0] == b[0] {
      assert (a + x)[1..] == a[1..] + x && (b + y)[1..] == b[1..] + y;
      LessDiverge(a[1..], b[1..], x, y);
    } else {
      assert (a + x)[0] == a[0] && (b + y)[0] == b[0];
    }
  }

  /** NUL-terminated strings form a prefix-free, order-preserving code. */
  lemma {:induction false} TextOrder(s: CString, t: CString)
    ensures Less(s + [0], t + [0]) <==> Less(s, t)
    ensures s != t ==> Diverge(s + [0], t + [0])
  {
    if s != [] && t != [] && s[0] == t[0] {
      assert (s + [0])[1..] == s[1..] + [0] && (t + [0])[1..] == t[1..] + [0];
      TextOrder(s[1..], t[1..]);
      assert s == [s[0]] + s[1..] && t == [t[0]] + t[1..];
    } else if s == [] && t != [] {
      assert s + [0] == [0] && (t + [0])[0] == t[0];
    } else if t == [] && s != [] {
      assert t + [0] == [0] && (s + [0])[0] == s[0];
    } else if s != [] {
      assert (s + [0])[0] == s[0] && (t + [0])[0] == t[0];
    } else {
      assert (s + [0])[1..] == [];
    }
  }

  lemma PartOrder(p: Part, q: Part)
    requires p.Num? == q.Num?
    ensures p != q ==> Diverge(EncodePart(p), EncodePart(q))
    ensures p != q ==> (Less(EncodePart(p), EncodePart(q)) <==> PartLess(p, q))
    ensures p == q ==> !PartLess(p, q)
  {
    match p
    case Num(n) => U32Order(n, q.n);
    case Text(s) =>
      TextOrder(s, q.s);
      if p == q { LessIrreflexive(s); }
  }

  lemma {:induction false} LessIrreflexive(a: Bytes)
    ensures !Less(a, a)
  {
    if a != [] { LessIrreflexive(a[1..]); }
  }

  /** Concatenating component codes compares as comparing the components one by one. */
  lemma {:induction false} PartsOrder(ps: seq<Part>, qs: seq<Part>)
    requires SameShape(ps, qs)
    ensures Less(EncodeParts(ps), EncodeParts(qs)) <==> PartsLess(ps, qs)
    ensures EncodeParts(ps) == EncodeParts(qs) ==> ps == qs
    decreases |ps|
  {
    if ps != [] {
      var p, q := ps[0], qs[0];
      PartOrder(p, q);
      if p == q {
        LessPrefix(EncodePart(p), EncodeParts(ps[1..]), EncodeParts(qs[1..]));
        PartsOrder(ps[1..], qs[1..]);
        if EncodeParts(ps) == EncodeParts(qs) {
          ConcatCancel(EncodePart(p), EncodeParts(ps[1..]), EncodeParts(qs[1..]));
          assert ps == [p] + ps[1..] && qs == [q] + qs[1..];
        }
      } else {
        LessDiverge(EncodePart(p), EncodePart(q), EncodeParts(ps[1..]), EncodeParts(qs[1..]));
      }
    }
  }

  lemma ConcatCancel(a: Bytes, x: Bytes, y: Bytes)
    requires a + x == a + y
    ensures x == y
  {
    assert (a + x)[|a|..] == x && (a + y)[|a|..] == y;
  }

  predicate SameBuilder(k: Key, l: Key)
  {
    match k
    case Warehouse(_) => l.Warehouse?
    case District(_, _) => l.District?
    case Customer(_, _, _) => l.Customer?
    case CustomerName(_, _, _, _, _) => l.CustomerName?
    case History(_, _, _, _, _) => l.History?
    case Item(_) => l.Item?
    case Stock(_, _) => l.Stock?
    case Order(_, _, _) => l.Order?
    case NewOrder(_, _, _) => l.NewOrder?
    case OrderLine(_, _, _, _) => l.OrderLine?
    case NextOid(_, _) => l.NextOid?
    case World(_) => l.World?
  }

  lemma PrefixLength(k: Key)
    ensures 6 <= |Prefix(k)| <= 9
    ensures Prefix(k)[0] == 0x74
    ensures if k.World? then Prefix(k)[1] == 0x66
            else |Prefix(k)| >= 7 && Prefix(k)[..5] == TPCC
  {
  }

  /** No subspace prefix is a prefix of another one. */
  lemma PrefixesDiverge(k: Key, l: Key)
    requires !SameBuilder(k, l)
    ensures Diverge(Prefix(k), Prefix(l))
  {
    var p, q := Prefix(k), Prefix(l);
    PrefixLength(k);
    PrefixLength(l);
    if k.World? || l.World? {
      DivergeAt(p, q, 1);
    } else if p[5] != q[5] {
      DivergeAt(p, q, 5);
    } else {
      assert p[6] != q[6];
      DivergeAt(p, q, 6);
    }
  }

  /** `SS_OORDER_CID`, which no builder uses: "tpcc/oc/". */
  const ORDER_INDEX: Bytes := [0x74, 0x70, 0x63, 0x63, 0x2F, 0x6F, 0x63, 0x2F]

  /** The remaining prefix diverges from all others too, so no key lies in its subspace. */
  lemma OrderIndexDiverges(k: Key)
    ensures Diverge(ORDER_INDEX, Prefix(k)) && Diverge(Prefix(k), ORDER_INDEX)
    ensures !(ORDER_INDEX <= EncodeKey(k))
  {
    var p := Prefix(k);
    PrefixLength(k);
    var at := if k.World? then 1 else if p[5] != 0x6F then 5 else 6;
    assert p[at] != ORDER_INDEX[at];
    DivergeAt(ORDER_INDEX, p, at);
    DivergeAt(p, ORDER_INDEX, at);
    assert EncodeKey(k)[at] == p[at];
  }

  lemma {:induction false} DivergeAt(a: Bytes, b: Bytes, i: nat)
    requires i < |a| && i < |b| && a[i] != b[i]
    ensures Diverge(a, b)
    decreases i
  {
    if i > 0 && a[0] == b[0] {
      DivergeAt(a[1..], b[1..], i - 1);
    }
  }

  lemma {:induction false} DivergeDiffers(a: Bytes, b: Bytes)
    requires Diverge(a, b)
    ensures a != b
  {
    if a[0] == b[0] { DivergeDiffers(a[1..], b[1..]); }
  }

  /** Byte order of encoded keys is exactly the tuple order, over all builders at once. */
  lemma KeyOrder(k: Key, l: Key)
    ensures Less(EncodeKey(k), EncodeKey(l)) <==> KeyLess(k, l)
  {
    if SameBuilder(k, l) {
      assert SameShape(Parts(k), Parts(l));
      LessPrefix(Prefix(k), EncodeParts(Parts(k)), EncodeParts(Parts(l)));
      PartsOrder(Parts(k), Parts(l));
    } else {
      PrefixesDiverge(k, l);
      DivergeDiffers(Prefix(k), Prefix(l));
      LessDiverge(Prefix(k), Prefix(l), EncodeParts(Parts(k)), EncodeParts(Parts(l)));
    }
  }

  /** Different keys, of the same table or of different ones, never share an encoding. */
  lemma KeyInjective(k: Key, l: Key)
    requires EncodeKey(k) == EncodeKey(l)
    ensures k == l
  {
    if SameBuilder(k, l) {
      assert SameShape(Parts(k), Parts(l));
      ConcatCancel(Prefix(k), EncodeParts(Parts(k)), EncodeParts(Parts(l)));
      PartsOrder(Parts(k), Parts(l));
      PartsDetermine(k, l);
    } else {
      PrefixesDiverge(k, l);
      LessDiverge(Prefix(k), Prefix(l), EncodeParts(Parts(k)), EncodeParts(Parts(l)));
    }
  }

  lemma PartsDetermine(k: Key, l: Key)
    requires SameBuilder(k, l) && Parts(k) == Parts(l)
    ensures k == l
  {
    var ps, qs := Parts(k), Parts(l);
    assert forall i :: 0 <= i < |ps| ==> ps[i] == qs[i];
    assert ps[0] == qs[0];
    assert |ps| > 1 ==> ps[1] == qs[1];
    assert |ps| > 2 ==> ps[2] == qs[2];
    assert |ps| > 3 ==> ps[3] == qs[3];
    assert |ps| > 4 ==> ps[4] == qs[4];
  }
}
