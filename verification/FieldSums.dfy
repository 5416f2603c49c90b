/** Finite sums over the field, and sums of fractions `weight / (value - gamma)`. */
module FieldSums {
  import opened PrimeField

  /** Accumulation from left to right, as the provers' loops do it. */
  function Sum(xs: seq<F>): F {
    if xs == [] then ZERO else Add(Sum(xs[..|xs| - 1]), xs[|xs| - 1])
  }

  /** `weight` activated copies of `value`. */
  datatype Term = Term(value: F, weight: F)

  function Fraction(t: Term, gamma: F): F {
    Mul(t.weight, Inv(Sub(t.value, gamma)))
  }

  /** The logarithmic-derivative sum of a list of weighted values. */
  function FractionSum(ts: seq<Term>, gamma: F): F {
    if ts == [] then ZERO else Add(FractionSum(ts[..|ts| - 1], gamma), Fraction(ts[|ts| - 1], gamma))
  }

  function TotalWeight(ts: seq<Term>): F {
    if ts == [] then ZERO else Add(TotalWeight(ts[..|ts| - 1]), ts[|ts| - 1].weight)
  }

  ghost predicate Avoids(ts: seq<Term>, gamma: F) {
    forall t | t in ts :: t.value != gamma
  }

  ghost predicate DistinctValues(ts: seq<Term>) {
    forall i, j | 0 <= i < j < |ts| :: ts[i].value != ts[j].value
  }

  ghost predicate AllZero(ts: seq<Term>) {
    forall t | t in ts :: t.weight == ZERO
  }

  // ---- sums ----

  lemma {:induction false} SumAppend(xs: seq<F>, ys: seq<F>)
    ensures Sum(xs + ys) == Add(Sum(xs), Sum(ys))
  {
    hide Add;
    if ys == [] {
      assert xs + ys == xs;
      AddZero(Sum(xs));
    } else {
      var init, last := ys[..|ys| - 1], ys[|ys| - 1];
      SumAppend(xs, init);
      assert (xs + ys)[..|xs + ys| - 1] == xs + init;
      AddAssoc(Sum(xs), Sum(init), last);
    }
  }

  lemma {:induction false} FractionSumAppend(ts: seq<Term>, us: seq<Term>, gamma: F)
    ensures FractionSum(ts + us, gamma) == Add(FractionSum(ts, gamma), FractionSum(us, gamma))
  {
    hide Add, Fraction;
    if us == [] {
      assert ts + us == ts;
      AddZero(FractionSum(ts, gamma));
    } else {
      var init, last := us[..|us| - 1], us[|us| - 1];
      FractionSumAppend(ts, init, gamma);
      assert (ts + us)[..|ts + us| - 1] == ts + init;
      AddAssoc(FractionSum(ts, gamma), FractionSum(init, gamma), Fraction(last, gamma));
    }
  }

  lemma {:induction false} FractionSumZero(ts: seq<Term>, gamma: F)
    requires AllZero(ts)
    ensures FractionSum(ts, gamma) == ZERO
  {
    if ts != [] {
      FractionSumZero(ts[..|ts| - 1], gamma);
      MulZero(Inv(Sub(ts[|ts| - 1].value, gamma)));
    }
  }

  // ---- two ways to combine fractions ----

  /** Every weight multiplied by `pivot - value`: the term at the pivot vanishes. */
  function Pivoted(ts: seq<Term>, pivot: F): (r: seq<Term>)
    ensures |r| == |ts|
    ensures forall i | 0 <= i < |r| :: r[i] == Term(ts[i].value, Mul(ts[i].weight, Sub(pivot, ts[i].value)))
  {
    seq(|ts|, i requires 0 <= i < |ts| => Term(ts[i].value, Mul(ts[i].weight, Sub(pivot, ts[i].value))))
  }

  /** Every weight divided by `value - h`. */
  function Divided(ts: seq<Term>, h: F): (r: seq<Term>)
    ensures |r| == |ts|
    ensures forall i | 0 <= i < |r| :: r[i] == Term(ts[i].value, Fraction(ts[i], h))
  {
    seq(|ts|, i requires 0 <= i < |ts| => Term(ts[i].value, Fraction(ts[i], h)))
  }

  lemma Telescope(a: F, b: F, c: F)
    ensures Sub(a, c) == Add(Sub(b, c), Sub(a, b))
  {
    hide Of;
    OfAdd(b - c, a - b);
    OfAdd(Of(b - c), a - b);
  }

  /** `(b - g) * w / (v - g) == w + w * (b - v) / (v - g)`. */
  lemma PivotTerm(t: Term, b: F, g: F)
    requires t.value != g
    ensures Mul(Sub(b, g), Fraction(t, g)) == Add(t.weight, Fraction(Term(t.value, Mul(t.weight, Sub(b, t.value))), g))
  {
    SubZero(t.value, g);
    hide Add, Mul, Sub, Inv;
    var v, w, i := t.value, t.weight, Inv(Sub(t.value, g));
    calc {
      Mul(Sub(b, g), Mul(w, i));
      { Telescope(b, v, g); }
      Mul(Add(Sub(v, g), Sub(b, v)), Mul(w, i));
      { Distrib(Mul(w, i), Sub(v, g), Sub(b, v)); }
      Add(Mul(Sub(v, g), Mul(w, i)), Mul(Sub(b, v), Mul(w, i)));
      { MulAssoc(Sub(b, v), w, i); MulComm(Sub(b, v), w); }
      Add(Mul(Sub(v, g), Mul(w, i)), Mul(Mul(w, Sub(b, v)), i));
      { MulComm(w, i); MulAssoc(Sub(v, g), i, w); MulInv(Sub(v, g)); MulOne(w); }
      Add(w, Mul(Mul(w, Sub(b, v)), i));
    }
  }

  /** Multiplying a sum by `pivot - gamma` leaves a constant and a sum with pivoted weights. */
  lemma {:induction false} PivotSum(ts: seq<Term>, pivot: F, g: F)
    requires Avoids(ts, g)
    ensures Mul(Sub(pivot, g), FractionSum(ts, g)) == Add(TotalWeight(ts), FractionSum(Pivoted(ts, pivot), g))
  {
    hide Add, Mul, Sub, Fraction;
    var k := Sub(pivot, g);
    if ts == [] {
      MulZero(k);
      AddZero(ZERO);
    } else {
      var init, last := ts[..|ts| - 1], ts[|ts| - 1];
      var ps := Pivoted(ts, pivot);
      PivotSum(init, pivot, g);
      assert ps[..|ps| - 1] == Pivoted(init, pivot);
      PivotTerm(last, pivot, g);
      Distrib(k, FractionSum(init, g), Fraction(last, g));
      AddShuffle(TotalWeight(init), FractionSum(Pivoted(init, pivot), g), last.weight, Fraction(ps[|ps| - 1], g));
    }
  }

  lemma AddShuffle(a: F, b: F, c: F, d: F)
    ensures Add(Add(a, b), Add(c, d)) == Add(Add(a, c), Add(b, d))
  {
    hide Add;
    AddAssoc(a, b, Add(c, d));
    AddAssoc(b, c, d);
    AddComm(b, c);
    AddAssoc(c, b, d);
    AddAssoc(a, c, Add(b, d));
  }

  /** `w / (v - g) == w / (v - h) + (g - h) * (w / (v - h)) / (v - g)`. */
  lemma DivideTerm(t: Term, g: F, h: F)
    requires t.value != g && t.value != h
    ensures Fraction(t, g) == Add(Fraction(t, h), Mul(Sub(g, h), Fraction(Term(t.value, Fraction(t, h)), g)))
  {
    SubZero(t.value, g);
    SubZero(t.value, h);
    hide Add, Mul, Sub, Inv;
    var v, w := t.value, t.weight;
    var i, j := Inv(Sub(v, g)), Inv(Sub(v, h));
    calc {
      Mul(w, i);
      { MulOne(i); MulInv(Sub(v, h)); }
      Mul(w, Mul(Mul(Sub(v, h), j), i));
      { Telescope2(v, g, h); }
      Mul(w, Mul(Mul(Add(Sub(v, g), Sub(g, h)), j), i));
      { Distrib(j, Sub(v, g), Sub(g, h)); Distrib(i, Mul(Sub(v, g), j), Mul(Sub(g, h), j)); }
      Mul(w, Add(Mul(Mul(Sub(v, g), j), i), Mul(Mul(Sub(g, h), j), i)));
      { Distrib(w, Mul(Mul(Sub(v, g), j), i), Mul(Mul(Sub(g, h), j), i)); }
      Add(Mul(w, Mul(Mul(Sub(v, g), j), i)), Mul(w, Mul(Mul(Sub(g, h), j), i)));
      { MulComm(Sub(v, g), j); MulAssoc(j, Sub(v, g), i); MulInv(Sub(v, g)); MulOne(j); }
      Add(Mul(w, j), Mul(w, Mul(Mul(Sub(g, h), j), i)));
      { MulAssoc(Sub(g, h), j, i); MulAssoc(w, Sub(g, h), Mul(j, i)); MulComm(w, Sub(g, h));
        MulAssoc(Sub(g, h), w, Mul(j, i)); MulAssoc(w, j, i); }
      Add(Mul(w, j), Mul(Sub(g, h), Mul(Mul(w, j), i)));
    }
  }

  lemma Telescope2(a: F, b: F, c: F)
    ensures Sub(a, c) == Add(Sub(a, b), Sub(b, c))
  {
    Telescope(a, b, c);
    AddComm(Sub(b, c), Sub(a, b));
  }

  /** Two evaluations of one sum differ by `g - h` times the sum with divided weights. */
  lemma {:induction false} DivideSum(ts: seq<Term>, g: F, h: F)
    requires Avoids(ts, g) && Avoids(ts, h)
    ensures FractionSum(ts, g) == Add(FractionSum(ts, h), Mul(Sub(g, h), FractionSum(Divided(ts, h), g)))
  {
    hide Add, Mul, Sub, Fraction;
    var k := Sub(g, h);
    if ts == [] {
      MulZero(k);
      AddZero(ZERO);
    } else {
      var init, last := ts[..|ts| - 1], ts[|ts| - 1];
      var ds := Divided(ts, h);
      DivideSum(init, g, h);
      assert ds[..|ds| - 1] == Divided(init, h);
      DivideTerm(last, g, h);
      Distrib(k, FractionSum(Divided(init, h), g), Fraction(ds[|ds| - 1], g));
      AddShuffle(FractionSum(init, h), Mul(k, FractionSum(Divided(init, h), g)),
                 Fraction(last, h), Mul(k, Fraction(ds[|ds| - 1], g)));
    }
  }

  // ---- a sum of n fractions that vanishes at n points has zero weights ----

  ghost predicate Distinct(gs: seq<F>) {
    forall i, j | 0 <= i < j < |gs| :: gs[i] != gs[j]
  }

  /** Elimination of the last value turns `n` fractions into a constant and `n - 1` fractions. */
  lemma {:induction false} VanishingSum(ts: seq<Term>, gs: seq<F>)
    requires DistinctValues(ts) && Distinct(gs) && |gs| == |ts|
    requires forall g | g in gs :: Avoids(ts, g) && FractionSum(ts, g) == ZERO
    ensures AllZero(ts)
    decreases |ts|, 0
  {
    if ts != [] {
      hide Mul, Sub, Fraction;
      var n := |ts|;
      var init, last := ts[..n - 1], ts[n - 1];
      var ps := Pivoted(init, last.value);
      forall g | g in gs ensures Avoids(ps, g) && Add(TotalWeight(ts), FractionSum(ps, g)) == ZERO {
        EliminateLast(ts, g);
        MulZero(Sub(last.value, g));
      }
      VanishingShiftedSum(TotalWeight(ts), ps, gs);
      forall i | 0 <= i < n - 1 ensures ts[i].weight == ZERO {
        assert ps[i] in ps;
        SubZero(last.value, ts[i].value);
        MulCancel(ts[i].weight, Sub(last.value, ts[i].value));
      }
      TotalZero(init);
      AddZero(last.weight);
    }
  }

  lemma {:induction false} TotalZero(ts: seq<Term>)
    requires AllZero(ts)
    ensures TotalWeight(ts) == ZERO
  {
    if ts != [] {
      TotalZero(ts[..|ts| - 1]);
      AddZero(ZERO);
    }
  }

  lemma EliminateLast(ts: seq<Term>, g: F)
    requires ts != [] && Avoids(ts, g)
    ensures var b := ts[|ts| - 1].value;
            var ps := Pivoted(ts[..|ts| - 1], b);
            Avoids(ps, g) && Mul(Sub(b, g), FractionSum(ts, g)) == Add(TotalWeight(ts), FractionSum(ps, g))
  {
    var n := |ts|;
    var b := ts[n - 1].value;
    var all, ps := Pivoted(ts, b), Pivoted(ts[..n - 1], b);
    PivotSum(ts, b, g);
    assert all[..n - 1] == ps;
    SubZero(b, b);
    MulZero(ts[n - 1].weight);
    MulZero(Inv(Sub(b, g)));
    AddZero(FractionSum(ps, g));
    assert Fraction(all[n - 1], g) == ZERO;
    forall t | t in ps ensures t.value != g {
      var i :| 0 <= i < |ps| && ps[i] == t;
      assert ts[i] in ts;
    }
  }

  lemma {:induction false} VanishingShiftedSum(c: F, ts: seq<Term>, gs: seq<F>)
    requires DistinctValues(ts) && Distinct(gs) && |gs| == |ts| + 1
    requires forall g | g in gs :: Avoids(ts, g) && Add(c, FractionSum(ts, g)) == ZERO
    ensures c == ZERO && AllZero(ts)
    decreases |ts|, 1
  {
    hide Mul, Sub, Fraction;
    var n := |ts|;
    var h := gs[n];
    var ds, rest := Divided(ts, h), gs[..n];
    assert h in gs;
    forall g | g in rest ensures Avoids(ds, g) && FractionSum(ds, g) == ZERO {
      assert g in gs;
      DividedVanishes(c, ts, g, h);
    }
    VanishingSum(ds, rest);
    forall i | 0 <= i < n ensures ts[i].weight == ZERO {
      assert ds[i] in ds && ts[i] in ts;
      FractionZero(ts[i], h);
    }
    FractionSumZero(ts, h);
    AddZero(c);
  }

  lemma FractionZero(t: Term, h: F)
    requires t.value != h && Fraction(t, h) == ZERO
    ensures t.weight == ZERO
  {
    SubZero(t.value, h);
    InvNonzero(Sub(t.value, h));
    MulCancel(t.weight, Inv(Sub(t.value, h)));
  }

  lemma DividedVanishes(c: F, ts: seq<Term>, g: F, h: F)
    requires g != h && Avoids(ts, g) && Avoids(ts, h)
    requires Add(c, FractionSum(ts, g)) == ZERO == Add(c, FractionSum(ts, h))
    ensures Avoids(Divided(ts, h), g) && FractionSum(Divided(ts, h), g) == ZERO
  {
    var ds := Divided(ts, h);
    forall t | t in ds ensures t.value != g {
      var i :| 0 <= i < |ds| && ds[i] == t;
      assert ts[i] in ts;
    }
    hide Add, Mul, Sub, Fraction;
    var x := Mul(Sub(g, h), FractionSum(ds, g));
    AddComm(c, FractionSum(ts, g));
    AddComm(c, FractionSum(ts, h));
    AddCancel(FractionSum(ts, g), FractionSum(ts, h), c);
    DivideSum(ts, g, h);
    AddZero(FractionSum(ts, h));
    AddComm(x, FractionSum(ts, h));
    AddComm(ZERO, FractionSum(ts, h));
    AddCancel(x, ZERO, FractionSum(ts, h));
    SubZero(g, h);
    MulCancel(Sub(g, h), FractionSum(ds, g));
  }
}
