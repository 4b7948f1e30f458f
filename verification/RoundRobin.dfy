/** How evenly `worker_pool_dispatch` spreads its calls: the counter wraps at 2^64, which the
    number of workers need not divide. */
module RoundRobin {
  import opened Words
  import opened Pool

  /** How many of the `m` dispatch calls from number `a` on go to worker `k` of `n`. */
  function Share(a: nat, m: nat, n: nat, k: nat): nat
    requires n > 0
  {
    if m == 0 then 0 else Share(a, m - 1, n, k) + (if Route(a + m - 1, n) == k then 1 else 0)
  }

  /** The same without wrap-around of the counter. */
  function PlainShare(a: nat, m: nat, n: nat, k: nat): nat
    requires n > 0
  {
    if m == 0 then 0 else PlainShare(a, m - 1, n, k) + (if (a + m - 1) % n == k then 1 else 0)
  }

  /** Counting a residue class: the first hit is `f` calls away, then every `n`-th call. */
  lemma {:induction false} PlainShareIs(a: nat, m: nat, n: nat, k: nat)
    requires k < n
    ensures PlainShare(a, m, n, k) == (m - (k - a) % n + n - 1) / n
  {
    var f := (k - a) % n;
    if m == 0 {
      SmallQuotient(n - 1 - f, n);
    } else {
      PlainShareIs(a, m - 1, n, k);
      HitsAt(a, m - 1, n, k);
      StepQuotient(m - 1 - f + n - 1, n);
    }
  }

  lemma SmallQuotient(x: nat, n: nat)
    requires x < n
    ensures x / n == 0
  {
  }

  lemma StepQuotient(x: int, n: nat)
    requires n > 0
    ensures (x + 1) / n == x / n + (if (x + 1) % n == 0 then 1 else 0)
  {
    var q, r := x / n, x % n;
    assert x == q * n + r;
    if r + 1 == n {
      assert x + 1 == (q + 1) * n + 0;
      ModUnique(x + 1, q + 1, 0, n);
    } else {
      assert x + 1 == q * n + (r + 1);
      ModUnique(x + 1, q, r + 1, n);
    }
  }

  /** Call `a + i` hits residue `k` exactly when `i` is a multiple of `n` past the first hit. */
  lemma HitsAt(a: nat, i: nat, n: nat, k: nat)
    requires k < n
    ensures (a + i) % n == k <==> (i - (k - a) % n + n) % n == 0
  {
    var f, q := (k - a) % n, (k - a) / n;
    assert k - a == q * n + f;
    assert i - f + n == a + i - k + (q + 1) * n;
    ModShift(a + i - k, q + 1, n);
    var p, r := (a + i) / n, (a + i) % n;
    assert a + i - k == p * n + (r - k);
    if r == k {
      ModUnique(a + i - k, p, 0, n);
    } else if r > k {
      ModUnique(a + i - k, p, r - k, n);
    } else {
      assert a + i - k == (p - 1) * n + (r - k + n);
      ModUnique(a + i - k, p - 1, r - k + n, n);
    }
  }

  lemma PlainBalance(a: nat, m: nat, n: nat, k: nat, l: nat)
    requires k < n && l < n
    ensures PlainShare(a, m, n, k) <= PlainShare(a, m, n, l) + 1
  {
    PlainShareIs(a, m, n, k);
    PlainShareIs(a, m, n, l);
    SharesWithin(m, k - a, l - a, n);
  }

  lemma SharesWithin(m: nat, x: int, y: int, n: nat)
    requires n > 0
    ensures (m - x % n + n - 1) / n <= (m - y % n + n - 1) / n + 1
  {
    QuotientWithin(m - x % n + n - 1, m - y % n + n - 1, n);
  }

  lemma QuotientWithin(x: int, y: int, n: nat)
    requires n > 0 && x < y + n
    ensures x / n <= y / n + 1
  {
    var e := x / n - y / n;
    assert x / n * n == y / n * n + e * n;
    assert e * n < 2 * n;
    if e >= 2 { MulAtLeast(e - 1, n); }
  }

  /** Within one round of the counter, routing is plain round robin. */
  lemma {:induction false} NoWrapIsPlain(a: nat, m: nat, n: nat, k: nat)
    requires n > 0 && a % TWO64 + m <= TWO64
    ensures Share(a, m, n, k) == PlainShare(a % TWO64, m, n, k)
  {
    if m > 0 {
      NoWrapIsPlain(a, m - 1, n, k);
      assert a + m - 1 == a / TWO64 * TWO64 + (a % TWO64 + m - 1);
      ModUnique(a + m - 1, a / TWO64, a % TWO64 + m - 1, TWO64);
    }
  }

  lemma {:induction false} DividingIsPlain(a: nat, m: nat, n: nat, k: nat)
    requires n > 0 && TWO64 % n == 0
    ensures Share(a, m, n, k) == PlainShare(a, m, n, k)
  {
    if m > 0 {
      DividingIsPlain(a, m - 1, n, k);
      ModOfMod(a + m - 1, n, TWO64);
    }
  }

  lemma {:induction false} ShareSplits(a: nat, m: nat, m': nat, n: nat, k: nat)
    requires n > 0
    ensures Share(a, m + m', n, k) == Share(a, m, n, k) + Share(a + m, m', n, k)
    decreases m'
  {
    if m' > 0 { ShareSplits(a, m, m' - 1, n, k); }
  }

  /** Main result: over any window of calls, whether or not their pushes are accepted, two
      workers' shares differ by at most one when the counter does not wrap inside the window or
      the number of workers divides 2^64, and by at most two across one wrap. */
  lemma Balanced(a: nat, m: nat, n: nat, k: nat, l: nat)
    requires k < n && l < n
    ensures a % TWO64 + m <= TWO64 || TWO64 % n == 0 ==> Share(a, m, n, k) <= Share(a, m, n, l) + 1
    ensures a % TWO64 + m <= 2 * TWO64 ==> Share(a, m, n, k) <= Share(a, m, n, l) + 2
  {
    if TWO64 % n == 0 {
      DividingIsPlain(a, m, n, k);
      DividingIsPlain(a, m, n, l);
      PlainBalance(a, m, n, k, l);
    } else if a % TWO64 + m <= TWO64 {
      WithinRound(a, m, n, k, l);
    } else if a % TWO64 + m <= 2 * TWO64 {
      var first := TWO64 - a % TWO64;
      assert a + first == (a / TWO64 + 1) * TWO64 + 0;
      ModUnique(a + first, a / TWO64 + 1, 0, TWO64);
      ShareSplits(a, first, m - first, n, k);
      ShareSplits(a, first, m - first, n, l);
      WithinRound(a, first, n, k, l);
      WithinRound(a + first, m - first, n, k, l);
    }
  }

  lemma WithinRound(a: nat, m: nat, n: nat, k: nat, l: nat)
    requires k < n && l < n && a % TWO64 + m <= TWO64
    ensures Share(a, m, n, k) <= Share(a, m, n, l) + 1
  {
    NoWrapIsPlain(a, m, n, k);
    NoWrapIsPlain(a, m, n, l);
    PlainBalance(a % TWO64, m, n, k, l);
  }

  /** The bound of two is reached: with three workers the calls before and after the wrap both
      go to worker 0. */
  lemma WrapCostsTwo()
    ensures Share(TWO64 - 1, 2, 3, 0) == 2 && Share(TWO64 - 1, 2, 3, 1) == 0
  {
    assert Route(TWO64 - 1, 3) == 0 && Route(TWO64, 3) == 0;
    assert Share(TWO64 - 1, 1, 3, 0) == 1 && Share(TWO64 - 1, 1, 3, 1) == 0;
  }
}
