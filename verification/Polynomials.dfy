/** Multilinear polynomials by their evaluations, and the virtual polynomials built from them. */
module Polynomials {
  import opened Powers
  import opened PrimeField
  import opened FieldSums

  /** The evaluations of a multilinear polynomial over its own Boolean cube. */
  type Evals = s: seq<F> | |s| > 0 witness [ZERO]

  /** A tracked polynomial: a committed one, or one derived by arithmetic on tracked polynomials. */
  datatype VPoly =
    | Base(evals: Evals)
    | Times(left: VPoly, right: VPoly)
    | Minus(left: VPoly, right: VPoly)
    | Scaled(poly: VPoly, factor: F)
    | Shifted(poly: VPoly, offset: F)

  function Wrap(i: nat, d: nat): (r: nat)
    requires 0 < d
    ensures r < d
  {
    i % d
  }

  /** The value at point `i` of a cube; a polynomial ignores the variables beyond its own. */
  function At(p: VPoly, i: nat): F {
    match p
    case Base(evals) => evals[Wrap(i, |evals|)]
    case Times(l, r) => Mul(At(l, i), At(r, i))
    case Minus(l, r) => Sub(At(l, i), At(r, i))
    case Scaled(q, c) => Mul(At(q, i), c)
    case Shifted(q, c) => Add(At(q, i), c)
  }

  function CubeEvals(p: VPoly, n: nat): (r: seq<F>)
    ensures |r| == Pow2(n) && forall i | 0 <= i < |r| :: r[i] == At(p, i)
  {
    seq(Pow2(n), i requires 0 <= i => At(p, i))
  }

  ghost predicate SumsTo(p: VPoly, n: nat, value: F) {
    Sum(CubeEvals(p, n)) == value
  }

  ghost predicate VanishesOn(p: VPoly, n: nat) {
    forall i | 0 <= i < Pow2(n) :: At(p, i) == ZERO
  }

  /** `ys` repeats `xs`: the evaluations of one polynomial over a larger cube. */
  ghost predicate Repeats(ys: seq<F>, xs: seq<F>) {
    xs != [] && forall i | 0 <= i < |ys| :: ys[i] == xs[Wrap(i, |xs|)]
  }

  /** Each extra variable doubles the sum. */
  lemma {:induction false} RepeatedSum(ys: seq<F>, xs: seq<F>, k: nat, n: nat)
    requires k <= n && |xs| == Pow2(k) && |ys| == Pow2(n) && Repeats(ys, xs)
    ensures Sum(ys) == Mul(Of(Pow2(n - k)), Sum(xs))
    decreases n
  {
    hide Of, Add, Mul, Sum, Wrap;
    if k == n {
      WrapSmall(xs);
      assert ys == xs;
      MulOne(Sum(xs));
      OfF(ONE);
    } else {
      var h := Pow2(n - 1);
      assert ys == ys[..h] + ys[h..];
      PowersDivide(k, n - 1);
      RepeatsHalves(ys, xs, h);
      RepeatedSum(ys[..h], xs, k, n - 1);
      RepeatedSum(ys[h..], xs, k, n - 1);
      SumAppend(ys[..h], ys[h..]);
      DoubledSum(Pow2(n - 1 - k), Sum(xs));
    }
  }

  lemma WrapSmall(xs: seq<F>)
    ensures forall i | 0 <= i < |xs| :: Wrap(i, |xs|) == i
  {
  }

  lemma RepeatsHalves(ys: seq<F>, xs: seq<F>, h: nat)
    requires Repeats(ys, xs) && |ys| == 2 * h && h % |xs| == 0
    ensures Repeats(ys[..h], xs) && Repeats(ys[h..], xs)
  {
    hide Wrap;
    forall i | 0 <= i < h ensures ys[h..][i] == xs[Wrap(i, |xs|)] {
      ShiftedIndex(i, h, |xs|);
    }
  }

  lemma DoubledSum(c: nat, x: F)
    ensures Mul(Of(2 * c), x) == Add(Mul(Of(c), x), Mul(Of(c), x))
  {
    hide Of, Add, Mul;
    OfPlus(c, c);
    Distrib(x, Of(c), Of(c));
  }

  lemma {:induction false} PowersDivide(k: nat, n: nat)
    requires k <= n
    ensures Pow2(n) % Pow2(k) == 0
    decreases n
  {
    if k == n {
      DivisionUnique(Pow2(k), Pow2(n), 1, 0);
    } else {
      PowersDivide(k, n - 1);
      var d := Pow2(k);
      var q := Pow2(n - 1) / d;
      assert Pow2(n) == d * (2 * q) by {
        assert Pow2(n - 1) == d * q;
      }
      DivisionUnique(d, Pow2(n), 2 * q, 0);
    }
  }

  lemma ShiftedIndex(i: nat, h: nat, d: nat)
    requires 0 < d && h % d == 0
    ensures Wrap(h + i, d) == Wrap(i, d)
  {
    var q, r := i / d, i % d;
    assert h + i == d * (h / d + q) + r by {
      assert h == d * (h / d);
      assert d * (h / d + q) == d * (h / d) + d * q;
    }
    DivisionUnique(d, h + i, h / d + q, r);
  }

  /** A power of two adds up along exponents. */
  lemma {:induction false} PowerSum(a: nat, b: nat)
    ensures Of(Pow2(a + b)) == Mul(Of(Pow2(a)), Of(Pow2(b)))
  {
    hide Of, Mul;
    if a == 0 {
      OfF(ONE);
      MulOne(Of(Pow2(b)));
    } else {
      PowerSum(a - 1, b);
      OfTimes(2, Pow2(a - 1 + b));
      OfTimes(2, Pow2(a - 1));
      MulAssoc(Of(2), Of(Pow2(a - 1)), Of(Pow2(b)));
    }
  }
}
