/** Powers of two over the naturals, and uniqueness of quotients. */
module Powers {

  function Pow2(k: nat): (r: nat)
    ensures r >= 1
  {
    if k == 0 then 1 else 2 * Pow2(k - 1)
  }

  ghost predicate IsPower(n: nat) {
    exists k: nat :: n == Pow2(k)
  }

  lemma {:induction false} PowerMonotone(a: nat, b: nat)
    requires a <= b
    ensures Pow2(a) <= Pow2(b)
    decreases b
  {
    if a < b {
      PowerMonotone(a, b - 1);
    }
  }

  /** Doubling from `p` until `n` is reached. */
  function DoubleUntil(n: nat, p: nat): (r: nat)
    requires 0 < p
    ensures r >= n
    decreases n - p
  {
    if p >= n then p else DoubleUntil(n, 2 * p)
  }

  /** `n.next_power_of_two()`, before any overflow. */
  function NextPower(n: nat): nat {
    DoubleUntil(n, 1)
  }

  ghost predicate IsLeastPowerAtLeast(r: nat, n: nat) {
    IsPower(r) && r >= n && forall p: nat | IsPower(p) && p >= n :: r <= p
  }

  lemma {:induction false} DoubleUntilLeast(n: nat, k: nat)
    requires k > 0 ==> Pow2(k - 1) < n
    ensures IsLeastPowerAtLeast(DoubleUntil(n, Pow2(k)), n)
    decreases n - Pow2(k)
  {
    if Pow2(k) >= n {
      forall p: nat | IsPower(p) && p >= n ensures Pow2(k) <= p {
        var j: nat :| p == Pow2(j);
        if j < k {
          PowerMonotone(j, k - 1);
        } else {
          PowerMonotone(k, j);
        }
      }
    } else {
      DoubleUntilLeast(n, k + 1);
    }
  }

  lemma NextPowerLeast(n: nat)
    ensures IsLeastPowerAtLeast(NextPower(n), n)
  {
    DoubleUntilLeast(n, 0);
  }

  /** The power after a power is its double. */
  lemma DoubledIsNext(n: nat)
    requires IsPower(n)
    ensures IsLeastPowerAtLeast(2 * n, n + 1)
  {
    var k: nat :| n == Pow2(k);
    assert 2 * n == Pow2(k + 1);
    forall p: nat | IsPower(p) && p >= n + 1 ensures 2 * n <= p {
      var j: nat :| p == Pow2(j);
      if j <= k {
        PowerMonotone(j, k);
      } else {
        PowerMonotone(k + 1, j);
      }
    }
  }

  /** Above a number that is no power, the next power is the next power at or above it. */
  lemma StrictForOthers(n: nat, r: nat)
    requires !IsPower(n) && IsLeastPowerAtLeast(r, n)
    ensures IsLeastPowerAtLeast(r, n + 1)
  {
  }

  // ---- the bit test for powers of two ----

  /** Bitwise conjunction, bit by bit from the lowest. */
  function BitAnd(a: nat, b: nat): nat {
    if a == 0 || b == 0 then 0 else 2 * BitAnd(a / 2, b / 2) + (if a % 2 == 1 && b % 2 == 1 then 1 else 0)
  }

  /** `n & (n - 1) == 0`, for a nonzero `n`. */
  predicate IsPowerOfTwo(n: nat) {
    n != 0 && BitAnd(n, n - 1) == 0
  }

  lemma {:induction false} BitAndSelf(n: nat)
    ensures BitAnd(n, n) == n
  {
    if n > 0 {
      BitAndSelf(n / 2);
    }
  }

  /** `n & (n - 1)` vanishes exactly on powers of two. */
  lemma {:induction false} BitTest(n: nat)
    ensures IsPowerOfTwo(n) <==> IsPower(n)
  {
    if n == 0 {
    } else if n % 2 == 0 {
      var m := n / 2;
      assert (n - 1) / 2 == m - 1 && (n - 1) % 2 == 1;
      BitTest(m);
      HalfPower(m);
    } else {
      var m := n / 2;
      assert (n - 1) / 2 == m && (n - 1) % 2 == 0;
      BitAndSelf(m);
      OddPower(n);
    }
  }

  lemma HalfPower(m: nat)
    requires m > 0
    ensures IsPower(2 * m) <==> IsPower(m)
  {
    if IsPower(m) {
      var k: nat :| m == Pow2(k);
      assert 2 * m == Pow2(k + 1);
    }
    if IsPower(2 * m) {
      var k: nat :| 2 * m == Pow2(k);
      assert k > 0 && m == Pow2(k - 1);
    }
  }

  lemma OddPower(n: nat)
    requires n % 2 == 1
    ensures IsPower(n) <==> n == 1
  {
    assert Pow2(0) == 1;
  }

  // ---- quotients ----

  lemma DivisionUnique(d: int, n: int, q: int, r: int)
    requires 0 <= r < d && n == d * q + r
    ensures n % d == r && n / d == q
  {
    var q', r' := n / d, n % d;
    assert d * (q - q') == r' - r by {
      assert n == d * q' + r';
      assert d * (q - q') == d * q - d * q';
    }
    if q != q' {
      NonzeroMultiple(d, q - q');
    }
  }

  lemma NonzeroMultiple(d: int, k: int)
    requires 0 < d && k != 0
    ensures d * k >= d || d * k <= -d
  {
    if k >= 1 {
      assert d * k >= d * 1;
    } else {
      assert d * k <= d * -1;
    }
  }
}
