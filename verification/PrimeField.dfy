/** The scalar field of the proof system: integers modulo an arbitrary odd prime. */
module PrimeField {
  import opened Powers

  ghost predicate IsPrime(n: nat) {
    2 <= n && forall d | 2 <= d < n :: n % d != 0
  }

  type OddPrime = p: nat | 2 < p && IsPrime(p) witness 3

  /** The characteristic. It has no right-hand side, so every proof below holds for each odd prime. */
  const P: OddPrime

  type F = x: int | 0 <= x < P ghost witness 0

  const ZERO: F := 0
  const ONE: F := 1

  /** `F::from`: reduction of an integer into the field, by steps of `P`. */
  function Of(n: int): F
    decreases if n < 0 then P - n else n
  {
    if n < 0 then Of(n + P) else if n < P then n else Of(n - P)
  }

  function Add(a: F, b: F): F {
    if a + b < P then a + b else a + b - P
  }

  function Sub(a: F, b: F): F {
    if a < b then a - b + P else a - b
  }

  function Neg(a: F): F {
    if a == 0 then 0 else P - a
  }

  function Mul(a: F, b: F): F
    decreases b
  {
    if b == 0 then 0 else Add(Mul(a, b - 1), a)
  }

  /** The largest `b` up to `k` with `a * b == 1`, and zero without one. */
  function Inverse(a: F, k: F): F
    decreases k
  {
    if k == 0 || Mul(a, k) == ONE then k else Inverse(a, k - 1)
  }

  /** The multiplicative inverse, and zero at zero: batch inversion skips zero entries and leaves them zero. */
  function Inv(a: F): F {
    Inverse(a, P - 1)
  }

  function Div(a: F, b: F): F {
    Mul(a, Inv(b))
  }

  // ---- reduction is a ring homomorphism ----

  lemma RemainderShift(n: int, k: int)
    ensures (n + P * k) % P == n % P
  {
    var q, r := n / P, n % P;
    assert n + P * k == P * (q + k) + r by {
      assert P * (q + k) == P * q + P * k;
    }
    DivisionUnique(P, n + P * k, q + k, r);
  }

  /** Reduction is the remainder. */
  lemma {:induction false} OfRemainder(n: int)
    ensures Of(n) == n % P
    decreases if n < 0 then P - n else n
  {
    if n < 0 {
      OfRemainder(n + P);
      RemainderShift(n, 1);
    } else if n < P {
      DivisionUnique(P, n, 0, n);
    } else {
      OfRemainder(n - P);
      RemainderShift(n, -1);
    }
  }

  lemma OfShift(n: int, k: int)
    ensures Of(n + P * k) == Of(n)
  {
    OfRemainder(n);
    OfRemainder(n + P * k);
    RemainderShift(n, k);
  }

  lemma OfF(a: F)
    ensures Of(a) == a
  {
  }

  lemma Quotient(n: int)
    ensures n == P * (n / P) + Of(n)
  {
    OfRemainder(n);
  }

  lemma OfAdd(x: int, y: int)
    ensures Of(Of(x) + y) == Of(x + y) && Of(x + Of(y)) == Of(x + y)
  {
    hide Of;
    Quotient(x);
    Quotient(y);
    OfShift(Of(x) + y, x / P);
    OfShift(x + Of(y), y / P);
  }

  lemma OfNeg(x: int)
    ensures Of(0 - Of(x)) == Of(0 - x)
  {
    hide Of;
    Quotient(x);
    OfShift(0 - x, x / P);
  }

  lemma OfMulLeft(x: int, y: int)
    ensures Of(Of(x) * y) == Of(x * y)
  {
    hide Of;
    Quotient(x);
    var k, r := x / P, Of(x);
    OfShift(r * y, k * y);
    assert x * y == r * y + P * (k * y) by {
      assert x * y == (P * k + r) * y;
      assert (P * k + r) * y == (P * k) * y + r * y;
      assert (P * k) * y == P * (k * y);
    }
  }

  lemma OfMulRight(x: int, y: int)
    ensures Of(x * Of(y)) == Of(x * y)
  {
    hide Of;
    OfMulLeft(y, x);
    assert Of(y) * x == x * Of(y) && y * x == x * y;
  }

  lemma AddIsOf(a: F, b: F)
    ensures Add(a, b) == Of(a + b)
  {
  }

  lemma NegIsOf(a: F)
    ensures Neg(a) == Of(0 - a)
  {
  }

  /** Multiplication is the reduced product. */
  lemma {:induction false} MulIsOf(a: F, b: F)
    ensures Mul(a, b) == Of(a * b)
    decreases b
  {
    if b > 0 {
      MulIsOf(a, b - 1);
      AddIsOf(Of(a * (b - 1)), a);
      OfAdd(a * (b - 1), a);
      assert a * (b - 1) + a == a * b;
    }
  }

  lemma OfPlus(x: int, y: int)
    ensures Of(x + y) == Add(Of(x), Of(y))
  {
    AddIsOf(Of(x), Of(y));
    hide Of, Add;
    OfAdd(x, y);
    OfAdd(Of(x), y);
  }

  lemma OfTimes(x: int, y: int)
    ensures Of(x * y) == Mul(Of(x), Of(y))
  {
    hide Of, Mul;
    MulIsOf(Of(x), Of(y));
    OfMulLeft(x, y);
    OfMulRight(Of(x), y);
  }

  // ---- field laws ----

  lemma AddComm(a: F, b: F)
    ensures Add(a, b) == Add(b, a)
  {
  }

  lemma AddZero(a: F)
    ensures Add(a, ZERO) == a && Add(ZERO, a) == a
  {
  }

  lemma AddAssoc(a: F, b: F, c: F)
    ensures Add(Add(a, b), c) == Add(a, Add(b, c))
  {
  }

  lemma AddNeg(a: F)
    ensures Add(a, Neg(a)) == ZERO
  {
  }

  lemma SubIsAddNeg(a: F, b: F)
    ensures Sub(a, b) == Add(a, Neg(b))
  {
  }

  lemma MulComm(a: F, b: F)
    ensures Mul(a, b) == Mul(b, a)
  {
    MulIsOf(a, b);
    MulIsOf(b, a);
    assert a * b == b * a;
  }

  lemma MulZero(a: F)
    ensures Mul(a, ZERO) == ZERO && Mul(ZERO, a) == ZERO
  {
    MulComm(ZERO, a);
  }

  lemma MulOne(a: F)
    ensures Mul(a, ONE) == a && Mul(ONE, a) == a
  {
    MulComm(ONE, a);
  }

  lemma MulAssoc(a: F, b: F, c: F)
    ensures Mul(Mul(a, b), c) == Mul(a, Mul(b, c))
  {
    OfF(a);
    OfF(b);
    OfF(c);
    hide Of, Mul;
    OfTimes(a, b);
    OfTimes(b, c);
    OfTimes(a * b, c);
    OfTimes(a, b * c);
    ProductAssoc(a, b, c);
  }

  lemma ProductAssoc(x: int, y: int, z: int)
    ensures (x * y) * z == x * (y * z)
  {
  }

  lemma ProductDistrib(x: int, y: int, z: int)
    ensures x * (y + z) == x * y + x * z
  {
  }

  lemma DistribLeft(a: F, b: F, c: F)
    ensures Mul(a, Add(b, c)) == Add(Mul(a, b), Mul(a, c))
  {
    hide Of, Add, Mul;
    OfF(a);
    OfF(b);
    OfF(c);
    OfPlus(b, c);
    OfTimes(a, b + c);
    OfTimes(a, b);
    OfTimes(a, c);
    OfPlus(a * b, a * c);
    ProductDistrib(a, b, c);
  }

  lemma Distrib(a: F, b: F, c: F)
    ensures Mul(a, Add(b, c)) == Add(Mul(a, b), Mul(a, c))
    ensures Mul(Add(b, c), a) == Add(Mul(b, a), Mul(c, a))
  {
    hide Add, Mul;
    DistribLeft(a, b, c);
    MulComm(a, Add(b, c));
    MulComm(a, b);
    MulComm(a, c);
  }

  /** Opposites are unique. */
  lemma NegUnique(a: F, b: F)
    requires Add(a, b) == ZERO
    ensures b == Neg(a)
  {
  }

  lemma MulNeg(a: F, b: F)
    ensures Mul(a, Neg(b)) == Neg(Mul(a, b)) && Mul(Neg(a), b) == Neg(Mul(a, b))
  {
    hide Add, Mul, Neg;
    Distrib(a, b, Neg(b));
    Distrib(b, a, Neg(a));
    AddNeg(a);
    AddNeg(b);
    MulZero(a);
    MulZero(b);
    NegUnique(Mul(a, b), Mul(a, Neg(b)));
    NegUnique(Mul(a, b), Mul(Neg(a), b));
  }

  lemma NegAdd(a: F, b: F)
    ensures Neg(Add(a, b)) == Add(Neg(a), Neg(b))
  {
  }

  /** Every nonzero element has an inverse: `P % a` is `-(P / a) * a`, and it is smaller than `a`. */
  lemma Euclid(a: F) returns (b: F)
    requires a != ZERO
    ensures Mul(a, b) == ONE
    decreases a
  {
    if a == 1 {
      b := ONE;
      MulOne(ONE);
    } else {
      var q, r := P / a, P % a;
      Remainder(a);
      var i := Euclid(r);
      b := Neg(Mul(Of(q), i));
      InvStep(a, Of(q), r, i);
    }
  }

  lemma Remainder(a: F)
    requires a > 1
    ensures 0 < P % a < a
    ensures P % a == Neg(Mul(a, Of(P / a)))
  {
    var q, r := P / a, P % a;
    assert P == a * q + r;
    OfF(r);
    MulIsOf(a, Of(q));
    NegIsOf(Of(a * q));
    assert Of(r) == Neg(Mul(a, Of(q))) by {
      hide Of, Mul, Neg;
      OfMulRight(a, q);
      OfNeg(a * q);
      OfShift(0 - a * q, 1);
      assert 0 - a * q + P * 1 == r;
    }
  }

  lemma {:induction false} InverseFound(a: F, k: F, b: F)
    requires b <= k && Mul(a, b) == ONE
    ensures Mul(a, Inverse(a, k)) == ONE
    decreases k
  {
    hide Mul;
    if b < k && Mul(a, k) != ONE {
      InverseFound(a, k - 1, b);
    }
  }

  lemma MulInv(a: F)
    requires a != ZERO
    ensures Mul(a, Inv(a)) == ONE
  {
    var b := Euclid(a);
    InverseFound(a, P - 1, b);
  }

  /** Inversion leaves zero where it is. */
  lemma {:induction false} InverseOfZero(k: F)
    ensures Inverse(ZERO, k) == ZERO
    decreases k
  {
    MulZero(k);
    if k > 0 {
      InverseOfZero(k - 1);
    }
  }

  lemma InvStep(a: F, q: F, r: F, i: F)
    requires r == Neg(Mul(a, q)) && Mul(r, i) == ONE
    ensures Mul(a, Neg(Mul(q, i))) == ONE
  {
    hide Mul, Neg;
    calc {
      Mul(a, Neg(Mul(q, i)));
      { MulNeg(a, Mul(q, i)); }
      Neg(Mul(a, Mul(q, i)));
      { MulAssoc(a, q, i); }
      Neg(Mul(Mul(a, q), i));
      { MulNeg(Mul(a, q), i); }
      Mul(r, i);
    }
  }

  // ---- consequences used by the sums ----

  lemma MulCancel(a: F, b: F)
    requires Mul(a, b) == ZERO
    ensures a == ZERO || b == ZERO
  {
    hide Mul, Inv;
    if a != ZERO {
      calc {
        b;
        { MulOne(b); }
        Mul(ONE, b);
        { MulInv(a); MulComm(a, Inv(a)); }
        Mul(Mul(Inv(a), a), b);
        { MulAssoc(Inv(a), a, b); }
        Mul(Inv(a), ZERO);
        { MulZero(Inv(a)); }
        ZERO;
      }
    }
  }

  lemma InvNonzero(a: F)
    requires a != ZERO
    ensures Inv(a) != ZERO
  {
    MulInv(a);
    MulZero(a);
  }

  /** An inverse is unique: this is what the zerocheck on `phat` pins down. */
  lemma InvUnique(a: F, b: F)
    requires Mul(a, b) == ONE
    ensures a != ZERO && b == Inv(a)
  {
    hide Mul, Inv;
    MulZero(b);
    calc {
      b;
      { MulOne(b); MulInv(a); MulComm(a, Inv(a)); }
      Mul(Mul(Inv(a), a), b);
      { MulAssoc(Inv(a), a, b); }
      Mul(Inv(a), ONE);
      { MulOne(Inv(a)); }
      Inv(a);
    }
  }

  lemma SubZero(a: F, b: F)
    ensures Sub(a, b) == ZERO <==> a == b
    ensures Sub(a, ZERO) == a
  {
  }

  lemma AddCancel(a: F, b: F, c: F)
    requires Add(a, c) == Add(b, c)
    ensures a == b
  {
  }

  /** Two is invertible, so every power of two is. */
  lemma {:induction false} PowerOfTwoNonzero(k: nat)
    ensures Of(Pow2(k)) != ZERO
  {
    if k > 0 {
      PowerOfTwoNonzero(k - 1);
      OfTimes(2, Pow2(k - 1));
      OfF(2);
      if Of(Pow2(k)) == ZERO {
        MulCancel(2, Of(Pow2(k - 1)));
      }
    }
  }
}
