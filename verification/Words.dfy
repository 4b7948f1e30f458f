/** Fixed-width machine integers, written out over unbounded `int`, and the
    bitwise operations the C code applies to them. */
module Words {

  datatype Option<T> = None | Some(value: T)

  type byte = x: int | 0 <= x < 256
  type Bytes = seq<byte>

  const TWO16 := 0x1_0000
  const TWO32 := 0x1_0000_0000
  const TWO64 := 0x1_0000_0000_0000_0000

  type u32 = x: int | 0 <= x < 0x1_0000_0000
  type i16 = x: int | -0x8000 <= x < 0x8000
  type i32 = x: int | -0x8000_0000 <= x < 0x8000_0000
  type i64 = x: int | -0x8000_0000_0000_0000 <= x < 0x8000_0000_0000_0000
  type Word = x: int | 0 <= x < 0x1_0000_0000_0000_0000

  function U32(x: int): u32 { x % 0x1_0000_0000 }

  function I16(x: int): i16 { (x + 0x8000) % 0x1_0000 - 0x8000 }

  function I32(x: int): i32 { (x + 0x8000_0000) % 0x1_0000_0000 - 0x8000_0000 }

  function I64(x: int): i64 { (x + 0x8000_0000_0000_0000) % 0x1_0000_0000_0000_0000 - 0x8000_0000_0000_0000 }

  /** Reducing to 64 bits early or late makes no difference to a sum. */
  lemma I64Sum(x: int, y: int)
    ensures I64(I64(x) + y) == I64(x + y)
  {
    var q := (x + 0x8000_0000_0000_0000) / TWO64;
    assert I64(x) + y == x + y - q * TWO64;
    ShiftI64(x + y, -q);
  }

  lemma I16Sum(x: int, y: int)
    ensures I16(I16(x) + y) == I16(x + y)
  {
    var q := (x + 0x8000) / TWO16;
    assert I16(x) + y == x + y - q * TWO16;
    ModShift(x + y + 0x8000, -q, TWO16);
  }

  lemma InRange64(x: i64)
    ensures I64(x) == x
  {
  }

  lemma InRange16(x: i16)
    ensures I16(x) == x
  {
  }

  lemma ShiftI64(x: int, q: int)
    ensures I64(x + q * TWO64) == I64(x)
  {
    ModShift(x + 0x8000_0000_0000_0000, q, TWO64);
  }

  lemma ModShift(x: int, q: int, m: int)
    requires 0 < m
    ensures (x + q * m) % m == x % m
  {
    var d := x / m;
    assert x == d * m + x % m;
    assert x + q * m == (d + q) * m + x % m;
    ModUnique(x + q * m, d + q, x % m, m);
  }

  /** Division with remainder is unique. */
  lemma ModUnique(x: int, q: int, r: int, m: int)
    requires 0 <= r < m
    requires x == q * m + r
    ensures x / m == q && x % m == r
  {
    var e := x / m - q;
    assert x == (x / m) * m + x % m;
    assert e * m == r - x % m;
    if e >= 1 {
      MulAtLeast(e, m);
    } else if e <= -1 {
      MulAtLeast(-e, m);
    }
  }

  lemma MulAtLeast(e: int, m: int)
    requires 1 <= e && 0 < m
    ensures e * m >= m
  {
  }

  /** `x & y` on natural numbers, bit by bit. */
  function And(x: nat, y: nat): nat
    decreases x
  {
    if x == 0 || y == 0 then 0
    else 2 * And(x / 2, y / 2) + (x % 2) * (y % 2)
  }

  function Pow2(k: nat): (p: nat)
    ensures p > 0
  {
    if k == 0 then 1 else 2 * Pow2(k - 1)
  }

  /** Masking with `2^k - 1` is the remainder modulo `2^k`. */
  lemma {:induction false} AndMask(x: nat, k: nat)
    ensures And(x, Pow2(k) - 1) == x % Pow2(k)
    decreases k
  {
    if k == 0 {
      assert Pow2(0) == 1;
    } else if x == 0 {
    } else {
      AndMask(x / 2, k - 1);
      ModDouble(x, Pow2(k - 1));
    }
  }

  lemma ModDouble(x: nat, h: nat)
    requires h > 0
    ensures (2 * h - 1) / 2 == h - 1 && (2 * h - 1) % 2 == 1
    ensures x % (2 * h) == 2 * (x / 2 % h) + x % 2
  {
    var q, r := x / 2 / h, x / 2 % h;
    assert x / 2 == q * h + r;
    assert x == q * (2 * h) + (2 * r + x % 2);
    ModUnique(x, q, 2 * r + x % 2, 2 * h);
  }

  /** The test `(c & (c - 1)) == 0` of `spsc_ring_init` accepts exactly the powers of two. */
  lemma {:induction false} PowerOfTwoTest(c: nat)
    requires c > 0
    ensures And(c, c - 1) == 0 <==> exists k: nat :: c == Pow2(k)
    decreases c
  {
    if c == 1 {
      assert c == Pow2(0);
    } else if c % 2 == 1 {
      assert (c - 1) / 2 == c / 2 && (c - 1) % 2 == 0;
      assert And(c, c - 1) == 2 * And(c / 2, c / 2);
      AndSelf(c / 2);
      forall k: nat
        ensures c != Pow2(k)
      {
        assert k > 0 ==> Pow2(k) == 2 * Pow2(k - 1);
      }
    } else {
      assert (c - 1) / 2 == c / 2 - 1 && (c - 1) % 2 == 1;
      assert And(c, c - 1) == 2 * And(c / 2, c / 2 - 1);
      PowerOfTwoTest(c / 2);
      if And(c, c - 1) == 0 {
        var k: nat :| c / 2 == Pow2(k);
        assert c == Pow2(k + 1);
      }
      forall k: nat | c == Pow2(k)
        ensures And(c, c - 1) == 0
      {
        assert k > 0 && c / 2 == Pow2(k - 1);
      }
    }
  }

  lemma {:induction false} AndSelf(x: nat)
    ensures And(x, x) == x
  {
    if x > 0 { AndSelf(x / 2); }
  }

  lemma {:induction false} Pow2Divides(j: nat, k: nat)
    requires j <= k
    ensures Pow2(k) % Pow2(j) == 0 && Pow2(j) <= Pow2(k)
    decreases k
  {
    if j < k {
      Pow2Divides(j, k - 1);
      var m := Pow2(j);
      var q := Pow2(k - 1) / m;
      assert Pow2(k - 1) == q * m;
      assert Pow2(k) == (2 * q) * m;
      ModUnique(Pow2(k), 2 * q, 0, m);
    }
  }

  lemma Pow2Of64()
    ensures Pow2(64) == TWO64
  {
    assert Pow2(8) == 256;
    assert Pow2(16) == 0x1_0000 by { assert Pow2(12) == 4096; }
    assert Pow2(24) == 0x100_0000 by { assert Pow2(20) == 0x10_0000; }
    assert Pow2(32) == 0x1_0000_0000 by { assert Pow2(28) == 0x1000_0000; }
    assert Pow2(40) == 0x100_0000_0000 by { assert Pow2(36) == 0x10_0000_0000; }
    assert Pow2(48) == 0x1_0000_0000_0000 by { assert Pow2(44) == 0x1000_0000_0000; }
    assert Pow2(56) == 0x100_0000_0000_0000 by { assert Pow2(52) == 0x10_0000_0000_0000; }
    assert Pow2(60) == 0x1000_0000_0000_0000;
  }

  /** Reducing modulo a divisor of the word size commutes with wrap-around. */
  lemma ModOfMod(x: nat, m: nat, n: nat)
    requires 0 < m && 0 < n && n % m == 0
    ensures x % n % m == x % m
  {
    var q, c := x / n, n / m;
    assert n == c * m;
    assert x == x % n + q * n;
    assert q * n == (q * c) * m;
    ModShift(x % n, q * c, m);
  }

  /* --- Base 256 --- */

  function Pow256(len: nat): (p: nat)
    ensures p > 0
  {
    if len == 0 then 1 else 256 * Pow256(len - 1)
  }

  lemma PowersOf256()
    ensures Pow256(2) == TWO16 && Pow256(4) == TWO32 && Pow256(8) == TWO64
  {
    assert Pow256(2) == 256 * 256;
    assert Pow256(4) == 256 * (256 * Pow256(2));
    assert Pow256(6) == 256 * (256 * Pow256(4));
    assert Pow256(8) == 256 * (256 * Pow256(6));
  }

  /** The last digit and the remainder of the rest make the remainder of the whole. */
  lemma DigitStep(n: int, p: nat)
    requires p > 0
    ensures 256 * (n / 256 % p) + n % 256 == n % (256 * p)
  {
    var q, r := n / 256 / p, n / 256 % p;
    assert n / 256 == q * p + r;
    assert n == q * (256 * p) + (256 * r + n % 256);
    ModUnique(n, q, 256 * r + n % 256, 256 * p);
  }
}
