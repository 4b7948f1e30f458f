/** The key builders spelled out: the bytes of every key, with its prefix as text, and the order of
    each table's keys by its own columns. */
module KeyFormats {
  import opened Words
  import opened Keyspace

  predicate IsAscii(s: string)
  {
    forall i :: 0 <= i < |s| ==> (s[i] as int) < 128
  }

  function Ascii(s: string): Bytes
    requires IsAscii(s)
  {
    seq(|s|, i requires 0 <= i < |s| => s[i] as int)
  }

  /** The bytes of a key, column by column. */
  lemma KeyFormat(k: Key)
    ensures EncodeKey(k) ==
      match k
      case Warehouse(w) => Ascii("tpcc/w/") + EncodeU32(w)
      case District(w, d) => Ascii("tpcc/d/") + EncodeU32(w) + EncodeU32(d)
      case Customer(w, d, c) => Ascii("tpcc/c/") + EncodeU32(w) + EncodeU32(d) + EncodeU32(c)
      case CustomerName(w, d, last, first, c) =>
        Ascii("tpcc/cn/") + EncodeU32(w) + EncodeU32(d) + (last + [0]) + (first + [0]) + EncodeU32(c)
      case History(w, cw, cd, c, when) =>
        Ascii("tpcc/h/") + EncodeU32(w) + EncodeU32(cw) + EncodeU32(cd) + EncodeU32(c) + EncodeU32(when)
      case Item(i) => Ascii("tpcc/i/") + EncodeU32(i)
      case Stock(w, i) => Ascii("tpcc/s/") + EncodeU32(w) + EncodeU32(i)
      case Order(w, d, o) => Ascii("tpcc/o/") + EncodeU32(w) + EncodeU32(d) + EncodeU32(o)
      case NewOrder(w, d, o) => Ascii("tpcc/no/") + EncodeU32(w) + EncodeU32(d) + EncodeU32(o)
      case OrderLine(w, d, o, number) =>
        Ascii("tpcc/ol/") + EncodeU32(w) + EncodeU32(d) + EncodeU32(o) + EncodeU32(number)
      case NextOid(w, d) => Ascii("tpcc/nid/") + EncodeU32(w) + EncodeU32(d)
      case World(i) => Ascii("tfb/w/") + EncodeU32(i)
  {
    PrefixText(k);
    var p, ps := Prefix(k), Parts(k);
    match k
    case Warehouse(_) => OnePart(p, ps);
    case Item(_) => OnePart(p, ps);
    case World(_) => OnePart(p, ps);
    case District(_, _) => TwoParts(p, ps);
    case Stock(_, _) => TwoParts(p, ps);
    case NextOid(_, _) => TwoParts(p, ps);
    case Customer(_, _, _) => ThreeParts(p, ps);
    case Order(_, _, _) => ThreeParts(p, ps);
    case NewOrder(_, _, _) => ThreeParts(p, ps);
    case OrderLine(_, _, _, _) => FourParts(p, ps);
    case CustomerName(_, _, _, _, _) => FiveParts(p, ps);
    case History(_, _, _, _, _) => FiveParts(p, ps);
  }

  lemma PrefixText(k: Key)
    ensures Prefix(k) == match k
      case Warehouse(_) => Ascii("tpcc/w/")
      case District(_, _) => Ascii("tpcc/d/")
      case Customer(_, _, _) => Ascii("tpcc/c/")
      case CustomerName(_, _, _, _, _) => Ascii("tpcc/cn/")
      case History(_, _, _, _, _) => Ascii("tpcc/h/")
      case Item(_) => Ascii("tpcc/i/")
      case Stock(_, _) => Ascii("tpcc/s/")
      case Order(_, _, _) => Ascii("tpcc/o/")
      case NewOrder(_, _, _) => Ascii("tpcc/no/")
      case OrderLine(_, _, _, _) => Ascii("tpcc/ol/")
      case NextOid(_, _) => Ascii("tpcc/nid/")
      case World(_) => Ascii("tfb/w/")
  {
  }

  lemma FirstPart(p: Bytes, ps: seq<Part>)
    requires ps != []
    ensures p + EncodeParts(ps) == (p + EncodePart(ps[0])) + EncodeParts(ps[1..])
  {
  }

  lemma OnePart(p: Bytes, ps: seq<Part>)
    requires |ps| == 1
    ensures p + EncodeParts(ps) == p + EncodePart(ps[0])
  {
    assert ps[1..] == [];
  }

  lemma TwoParts(p: Bytes, ps: seq<Part>)
    requires |ps| == 2
    ensures p + EncodeParts(ps) == p + EncodePart(ps[0]) + EncodePart(ps[1])
  {
    FirstPart(p, ps);
    OnePart(p + EncodePart(ps[0]), ps[1..]);
  }

  lemma ThreeParts(p: Bytes, ps: seq<Part>)
    requires |ps| == 3
    ensures p + EncodeParts(ps) == p + EncodePart(ps[0]) + EncodePart(ps[1]) + EncodePart(ps[2])
  {
    FirstPart(p, ps);
    TwoParts(p + EncodePart(ps[0]), ps[1..]);
  }

  lemma FourParts(p: Bytes, ps: seq<Part>)
    requires |ps| == 4
    ensures p + EncodeParts(ps)
         == p + EncodePart(ps[0]) + EncodePart(ps[1]) + EncodePart(ps[2]) + EncodePart(ps[3])
  {
    FirstPart(p, ps);
    ThreeParts(p + EncodePart(ps[0]), ps[1..]);
  }

  lemma FiveParts(p: Bytes, ps: seq<Part>)
    requires |ps| == 5
    ensures p + EncodeParts(ps)
         == p + EncodePart(ps[0]) + EncodePart(ps[1]) + EncodePart(ps[2]) + EncodePart(ps[3]) + EncodePart(ps[4])
  {
    FirstPart(p, ps);
    FourParts(p + EncodePart(ps[0]), ps[1..]);
  }

  /* --- The order of a table's keys --- */

  /** Earlier columns first, names by their bytes, the last name before the first name. */
  predicate ColumnsLess(k: Key, l: Key)
    requires SameBuilder(k, l)
  {
    match k
    case Warehouse(w) => w < l.w
    case District(w, d) => w < l.w || (w == l.w && d < l.d)
    case Customer(w, d, c) => w < l.w || (w == l.w && (d < l.d || (d == l.d && c < l.c)))
    case CustomerName(w, d, last, first, c) =>
      w < l.w || (w == l.w && (d < l.d || (d == l.d && (Less(last, l.last) || (last == l.last &&
        (Less(first, l.first) || (first == l.first && c < l.c)))))))
    case History(w, cw, cd, c, when) =>
      w < l.w || (w == l.w && (cw < l.cw || (cw == l.cw && (cd < l.cd || (cd == l.cd &&
        (c < l.c || (c == l.c && when < l.when)))))))
    case Item(i) => i < l.i
    case Stock(w, i) => w < l.w || (w == l.w && i < l.i)
    case Order(w, d, o) => w < l.w || (w == l.w && (d < l.d || (d == l.d && o < l.o)))
    case NewOrder(w, d, o) => w < l.w || (w == l.w && (d < l.d || (d == l.d && o < l.o)))
    case OrderLine(w, d, o, number) =>
      w < l.w || (w == l.w && (d < l.d || (d == l.d && (o < l.o || (o == l.o && number < l.number)))))
    case NextOid(w, d) => w < l.w || (w == l.w && d < l.d)
    case World(i) => i < l.i
  }

  lemma LessOne(ps: seq<Part>, qs: seq<Part>)
    requires |ps| == |qs| == 1
    ensures PartsLess(ps, qs) <==> PartLess(ps[0], qs[0])
  {
    assert ps[1..] == [] && qs[1..] == [];
  }

  lemma LessTwo(ps: seq<Part>, qs: seq<Part>)
    requires |ps| == |qs| == 2
    ensures PartsLess(ps, qs) <==> PartLess(ps[0], qs[0]) || (ps[0] == qs[0] && PartLess(ps[1], qs[1]))
  {
    LessOne(ps[1..], qs[1..]);
  }

  lemma LessThree(ps: seq<Part>, qs: seq<Part>)
    requires |ps| == |qs| == 3
    ensures PartsLess(ps, qs) <==>
      PartLess(ps[0], qs[0]) || (ps[0] == qs[0] &&
        (PartLess(ps[1], qs[1]) || (ps[1] == qs[1] && PartLess(ps[2], qs[2]))))
  {
    LessTwo(ps[1..], qs[1..]);
  }

  lemma LessFour(ps: seq<Part>, qs: seq<Part>)
    requires |ps| == |qs| == 4
    ensures PartsLess(ps, qs) <==>
      PartLess(ps[0], qs[0]) || (ps[0] == qs[0] &&
        (PartLess(ps[1], qs[1]) || (ps[1] == qs[1] &&
          (PartLess(ps[2], qs[2]) || (ps[2] == qs[2] && PartLess(ps[3], qs[3]))))))
  {
    LessThree(ps[1..], qs[1..]);
  }

  lemma LessFive(ps: seq<Part>, qs: seq<Part>)
    requires |ps| == |qs| == 5
    ensures PartsLess(ps, qs) <==>
      PartLess(ps[0], qs[0]) || (ps[0] == qs[0] &&
        (PartLess(ps[1], qs[1]) || (ps[1] == qs[1] &&
          (PartLess(ps[2], qs[2]) || (ps[2] == qs[2] &&
            (PartLess(ps[3], qs[3]) || (ps[3] == qs[3] && PartLess(ps[4], qs[4]))))))))
  {
    LessFour(ps[1..], qs[1..]);
  }

  /** Main result: in byte order the keys of each table stand in the order of their columns. */
  lemma ColumnOrder(k: Key, l: Key)
    requires SameBuilder(k, l)
    ensures Less(EncodeKey(k), EncodeKey(l)) <==> ColumnsLess(k, l)
  {
    KeyOrder(k, l);
    var ps, qs := Parts(k), Parts(l);
    match |ps|
    case 1 => LessOne(ps, qs);
    case 2 => LessTwo(ps, qs);
    case 3 => LessThree(ps, qs);
    case 4 => LessFour(ps, qs);
    case _ => LessFive(ps, qs);
  }
}
