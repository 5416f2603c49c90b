/** What the keyed sumcheck proves: its sums agree exactly when every value has the same weight on both sides. */
module LogUp {
  import opened Options
  import opened Powers
  import opened PrimeField
  import opened FieldSums
  import opened Bookkeeping
  import opened Polynomials
  import opened Columns
  import opened KeyedSumcheck
  import opened HonestProver

  // ---- one column ----

  lemma CheckValue(p: F, ph: F, g: F)
    ensures Add(Sub(Mul(p, ph), Mul(ph, g)), Neg(ONE)) == ZERO <==> Mul(Sub(p, g), ph) == ONE
  {
    hide Add, Sub, Mul, Neg;
    MulComm(ph, g);
    SubIsAddNeg(p, g);
    SubIsAddNeg(Mul(p, ph), Mul(g, ph));
    Distrib(ph, p, Neg(g));
    MulNeg(g, ph);
    var x := Mul(Sub(p, g), ph);
    SubIsAddNeg(x, ONE);
    SubZero(x, ONE);
  }

  /** Whatever `phat` the prover sends, the zerocheck pins it down and keeps gamma off the evaluations. */
  lemma ZerocheckPinsPhat(col: Column, phat: Evals, gamma: F, n: nat)
    requires col.Valid() && col.nv <= n && VanishesOn(PhatCheck(Base(col.data), Base(phat), gamma), n)
    ensures Pinned(col, phat, gamma, n) && gamma !in col.data
  {
    hide Add, Sub, Mul, Neg, Inv, Wrap;
    forall i | 0 <= i < Pow2(n)
      ensures At(Base(phat), i) == Inv(Sub(At(Base(col.data), i), gamma)) && At(Base(col.data), i) != gamma
    {
      var p, ph := At(Base(col.data), i), At(Base(phat), i);
      assert At(PhatCheck(Base(col.data), Base(phat), gamma), i) == Add(Sub(Mul(p, ph), Mul(ph, gamma)), Neg(ONE)) by {
        assert At(Scaled(Base(phat), gamma), i) == Mul(ph, gamma);
        assert At(Times(Base(col.data), Base(phat)), i) == Mul(p, ph);
      }
      CheckValue(p, ph, gamma);
      InvUnique(Sub(p, gamma), ph);
      SubZero(p, gamma);
    }
    WrapSmall(col.data);
    PowerMonotone(col.nv, n);
    forall i | 0 <= i < |col.data| ensures col.data[i] != gamma {
      assert At(Base(col.data), i) == col.data[i];
    }
  }

  /** The honest `phat` passes the zerocheck whenever gamma avoids the column. */
  lemma HonestPhatPasses(col: Column, gamma: F, n: nat)
    requires col.Valid() && gamma !in col.data
    ensures VanishesOn(PhatCheck(Base(col.data), Base(PhatEvals(col, gamma)), gamma), n)
  {
    hide Add, Sub, Mul, Neg, Inv, Wrap;
    var phat := PhatEvals(col, gamma);
    forall i | 0 <= i < Pow2(n) ensures At(PhatCheck(Base(col.data), Base(phat), gamma), i) == ZERO {
      var p, ph := At(Base(col.data), i), At(Base(phat), i);
      assert At(PhatCheck(Base(col.data), Base(phat), gamma), i) == Add(Sub(Mul(p, ph), Mul(ph, gamma)), Neg(ONE)) by {
        assert At(Scaled(Base(phat), gamma), i) == Mul(ph, gamma);
        assert At(Times(Base(col.data), Base(phat)), i) == Mul(p, ph);
      }
      assert p in col.data;
      SubZero(p, gamma);
      MulInv(Sub(p, gamma));
      CheckValue(p, ph, gamma);
    }
  }

  // ---- one side ----

  ghost predicate WithinCube(cols: seq<Column>, n: nat) {
    forall c | c in cols :: c.nv <= n
  }

  ghost predicate SideTrue(cols: seq<Column>, ms: seq<Multiplicity>, phats: seq<Evals>, sums: seq<F>, gamma: F, n: nat)
    requires |cols| <= |ms| && |cols| <= |phats| && |cols| <= |sums|
  {
    && (forall c | c in SideClaims(cols, ms, phats, sums) :: SumsTo(c.poly, n, c.value))
    && (forall z | z in SideChecks(cols, phats, gamma) :: VanishesOn(z, n))
  }

  lemma SideColumn(cols: seq<Column>, ms: seq<Multiplicity>, phats: seq<Evals>, sums: seq<F>, gamma: F, n: nat, i: nat)
    requires ValidSide(cols, ms) && |cols| <= |phats| && |cols| <= |sums| && WithinCube(cols, n) && i < |cols|
    requires SideTrue(cols, ms, phats, sums, gamma, n)
    ensures gamma !in cols[i].data && ClaimsColumnSum(cols[i], ms[i], sums[i], gamma, n)
  {
    hide SideTrue, SumsTo, VanishesOn, FractionSum, Mul, Of, Summand, PhatCheck;
    ClaimsOfColumn(cols, ms, phats, sums, gamma, n, i);
    assert cols[i] in cols;
    ZerocheckPinsPhat(cols[i], phats[i], gamma, n);
    SumClaimed(cols[i], ms[i], phats[i], sums[i], gamma, n);
  }

  lemma ClaimsOfColumn(cols: seq<Column>, ms: seq<Multiplicity>, phats: seq<Evals>, sums: seq<F>, gamma: F, n: nat,
                       i: nat)
    requires |cols| <= |ms| && |cols| <= |phats| && |cols| <= |sums| && i < |cols|
    requires SideTrue(cols, ms, phats, sums, gamma, n)
    ensures SumsTo(Summand(cols[i], ms[i], Base(phats[i])), n, sums[i])
    ensures VanishesOn(PhatCheck(Base(cols[i].data), Base(phats[i]), gamma), n)
  {
    hide SumsTo, VanishesOn, Summand, PhatCheck;
    var claims, checks := SideClaims(cols, ms, phats, sums), SideChecks(cols, phats, gamma);
    assert claims[i] in claims && checks[i] in checks;
  }

  lemma SumClaimed(col: Column, m: Multiplicity, phat: Evals, sum: F, gamma: F, n: nat)
    requires col.Valid() && Fits(m, col) && col.nv <= n && Pinned(col, phat, gamma, n)
    requires SumsTo(Summand(col, m, Base(phat)), n, sum)
    ensures ClaimsColumnSum(col, m, sum, gamma, n)
  {
    hide Sum, FractionSum, Mul, Of, Summand, Pinned;
    ColumnClaim(col, m, phat, gamma, n);
  }

  /** Dividing by `2^(max - nv)` turns a sum over `n` variables into the sum for the size `max`. */
  lemma Normalise(s: F, nv: nat, max: nat, n: nat)
    requires nv <= max <= n
    ensures Div(Mul(Of(Pow2(n - nv)), s), Of(Pow2(max - nv))) == Mul(Of(Pow2(n - max)), s)
  {
    PowerOfTwoNonzero(max - nv);
    hide Of, Mul, Inv;
    var a, b := Of(Pow2(n - max)), Of(Pow2(max - nv));
    PowerSum(n - max, max - nv);
    assert n - nv == (n - max) + (max - nv);
    calc {
      Mul(Mul(Mul(a, b), s), Inv(b));
      { MulAssoc(a, b, s); MulComm(b, s); MulAssoc(a, s, b); }
      Mul(Mul(Mul(a, s), b), Inv(b));
      { MulAssoc(Mul(a, s), b, Inv(b)); MulInv(b); MulOne(Mul(a, s)); }
      Mul(a, s);
    }
  }

  /** The claimed sums are the columns' sums over the common cube. */
  ghost predicate SumsClaimed(cols: seq<Column>, ms: seq<Multiplicity>, sums: seq<F>, gamma: F, n: nat)
    requires ValidSide(cols, ms) && |cols| <= |sums| && WithinCube(cols, n)
  {
    forall i | 0 <= i < |cols| :: ClaimsColumnSum(cols[i], ms[i], sums[i], gamma, n)
  }

  ghost predicate ClaimsColumnSum(col: Column, m: Multiplicity, sum: F, gamma: F, n: nat)
    requires col.Valid() && Fits(m, col)
  {
    col.nv <= n && sum == Mul(Of(Pow2(n - col.nv)), FractionSum(RowTerms(col, m), gamma))
  }

  lemma {:induction false} NormalisedSide(cols: seq<Column>, ms: seq<Multiplicity>, sums: seq<F>, gamma: F, max: nat,
                                          n: nat)
    requires ValidSide(cols, ms) && |cols| <= |sums| && WithinCube(cols, max) && max <= n
    requires SumsClaimed(cols, ms, sums, gamma, n)
    ensures NormalisedSum(cols, sums, max) == Mul(Of(Pow2(n - max)), SideSum(cols, ms, gamma))
  {
    hide Of, Add, Mul, Div, FractionSum;
    if cols == [] {
      MulZero(Of(Pow2(n - max)));
    } else {
      var k := |cols| - 1;
      assert cols[k] in cols;
      NormalisedSide(cols[..k], ms[..k], sums, gamma, max, n);
      NormalisedColumn(cols[k], ms[k], sums[k], gamma, max, n);
      Distrib(Of(Pow2(n - max)), SideSum(cols[..k], ms[..k], gamma), FractionSum(RowTerms(cols[k], ms[k]), gamma));
    }
  }

  lemma NormalisedColumn(col: Column, m: Multiplicity, sum: F, gamma: F, max: nat, n: nat)
    requires col.Valid() && Fits(m, col) && col.nv <= max <= n && ClaimsColumnSum(col, m, sum, gamma, n)
    ensures Div(sum, Of(Pow2(max - col.nv))) == Mul(Of(Pow2(n - max)), FractionSum(RowTerms(col, m), gamma))
  {
    hide Of, Mul, Div, FractionSum;
    Normalise(FractionSum(RowTerms(col, m), gamma), col.nv, max, n);
  }

  lemma SideMeaning(cols: seq<Column>, ms: seq<Multiplicity>, phats: seq<Evals>, sums: seq<F>, gamma: F, max: nat,
                    n: nat)
    requires ValidSide(cols, ms) && |cols| <= |phats| && |cols| <= |sums| && WithinCube(cols, max) && max <= n
    requires SideTrue(cols, ms, phats, sums, gamma, n)
    ensures AvoidsColumns(cols, gamma)
    ensures NormalisedSum(cols, sums, max) == Mul(Of(Pow2(n - max)), SideSum(cols, ms, gamma))
  {
    hide FractionSum, Mul, Of;
    forall i | 0 <= i < |cols|
      ensures gamma !in cols[i].data && ClaimsColumnSum(cols[i], ms[i], sums[i], gamma, n)
    {
      SideColumn(cols, ms, phats, sums, gamma, n, i);
    }
    NormalisedSide(cols, ms, sums, gamma, max, n);
  }

  // ---- the protocol ----

  ghost predicate ValidInput(input: Input) {
    && input.fxs != [] && input.gxs != []
    && ValidSide(input.fxs, input.mfxs) && ValidSide(input.gxs, input.mgxs)
  }

  ghost predicate BooleanInput(input: Input) {
    BooleanSide(input.fxs) && BooleanSide(input.gxs)
  }

  ghost predicate AvoidsInput(input: Input, gamma: F) {
    AvoidsColumns(input.fxs, gamma) && AvoidsColumns(input.gxs, gamma)
  }

  /** Every claim the verifier registers is true on the common cube of `n` variables. */
  ghost predicate ClaimsTrue(input: Input, phats: seq<Evals>, sums: seq<F>, gamma: F, n: nat)
    requires ValidInput(input)
  {
    var k := |input.fxs|;
    && |phats| >= k + |input.gxs| && |sums| >= k + |input.gxs|
    && SideTrue(input.fxs, input.mfxs, phats, sums, gamma, n)
    && SideTrue(input.gxs, input.mgxs, phats[k..], sums[k..], gamma, n)
  }

  /** What an accepting verifier leaves with its tracker holds exactly when the claims of the theorems below do. */
  lemma RegisteredMeaning(verifier: ArgVerifier, input: Input, gamma: F, phats: seq<Evals>, sums: seq<F>,
                          sumsBefore: seq<SumClaim>, zerosBefore: seq<VPoly>, n: nat)
    requires ValidInput(input) && Verdict(input, phats, sums).Ok?
    requires verifier.Registered(input, gamma, phats, sums, sumsBefore, zerosBefore)
    ensures |sumsBefore| <= |verifier.sumClaims| && |zerosBefore| <= |verifier.zeroClaims|
    ensures ClaimsTrue(input, phats, sums, gamma, n) <==>
              && (forall c | c in verifier.sumClaims[|sumsBefore|..] :: SumsTo(c.poly, n, c.value))
              && (forall z | z in verifier.zeroClaims[|zerosBefore|..] :: VanishesOn(z, n))
  {
    hide SumsTo, VanishesOn, SideClaims, SideChecks, NormalisedSum, CommonNv;
    var k := |input.fxs|;
    var sumsF := SideClaims(input.fxs, input.mfxs, phats, sums);
    var sumsG := SideClaims(input.gxs, input.mgxs, phats[k..], sums[k..]);
    var zerosF, zerosG := SideChecks(input.fxs, phats, gamma), SideChecks(input.gxs, phats[k..], gamma);
    assert verifier.sumClaims[|sumsBefore|..] == sumsF + sumsG;
    assert verifier.zeroClaims[|zerosBefore|..] == zerosF + zerosG;
    assert forall c :: c in sumsF + sumsG <==> c in sumsF || c in sumsG;
    assert forall z :: z in zerosF + zerosG <==> z in zerosF || z in zerosG;
  }

  /** Some proof makes the verifier accept with every registered claim true. */
  ghost predicate Accepted(input: Input, gamma: F, n: nat)
    requires ValidInput(input)
  {
    exists phats, sums :: Verdict(input, phats, sums) == Ok(()) && ClaimsTrue(input, phats, sums, gamma, n)
  }

  /** With true claims, the verifier's comparison is the comparison of the two sides' sums. */
  lemma VerdictMeaning(input: Input, phats: seq<Evals>, sums: seq<F>, gamma: F, n: nat)
    requires ValidInput(input) && CommonNv(input) <= n && ClaimsTrue(input, phats, sums, gamma, n)
    ensures AvoidsInput(input, gamma)
    ensures Verdict(input, phats, sums) == Ok(())
       <==> SideSum(input.fxs, input.mfxs, gamma) == SideSum(input.gxs, input.mgxs, gamma)
  {
    hide SideSum, Mul, Of, NormalisedSum, SideTrue;
    var k, max := |input.fxs|, CommonNv(input);
    var a, b := SideSum(input.fxs, input.mfxs, gamma), SideSum(input.gxs, input.mgxs, gamma);
    SideMeaning(input.fxs, input.mfxs, phats, sums, gamma, max, n);
    SideMeaning(input.gxs, input.mgxs, phats[k..], sums[k..], gamma, max, n);
    PowerOfTwoNonzero(n - max);
    MulInjective(Of(Pow2(n - max)), a, b);
  }

  lemma MulInjective(c: F, a: F, b: F)
    requires c != ZERO
    ensures Mul(c, a) == Mul(c, b) <==> a == b
  {
    hide Mul, Inv;
    MulAssoc(Inv(c), c, a);
    MulAssoc(Inv(c), c, b);
    MulInv(c);
    MulComm(c, Inv(c));
    MulOne(a);
    MulOne(b);
  }

  /** The claimed sums of an honest proof: sums of the claimed polynomials over the common cube. */
  function CommonCubeSums(cols: seq<Column>, ms: seq<Multiplicity>, gamma: F, n: nat): (r: seq<F>)
    requires |cols| <= |ms|
    ensures |r| == |cols|
    ensures forall i | 0 <= i < |cols| :: r[i] == Sum(CubeEvals(HonestClaims(cols, ms, gamma)[i].poly, n))
  {
    seq(|cols|, i requires 0 <= i < |cols| => Sum(CubeEvals(HonestClaims(cols, ms, gamma)[i].poly, n)))
  }

  function HonestPhats(input: Input, gamma: F): seq<Evals> {
    PhatsOf(input.fxs, gamma) + PhatsOf(input.gxs, gamma)
  }

  function HonestSums(input: Input, gamma: F, n: nat): seq<F>
    requires |input.fxs| <= |input.mfxs| && |input.gxs| <= |input.mgxs|
  {
    CommonCubeSums(input.fxs, input.mfxs, gamma, n) + CommonCubeSums(input.gxs, input.mgxs, gamma, n)
  }

  lemma HonestSide(cols: seq<Column>, ms: seq<Multiplicity>, phats: seq<Evals>, sums: seq<F>, gamma: F, n: nat)
    requires ValidSide(cols, ms) && AvoidsColumns(cols, gamma)
    requires PhatsOf(cols, gamma) <= phats && CommonCubeSums(cols, ms, gamma, n) <= sums
    ensures SideTrue(cols, ms, phats, sums, gamma, n)
  {
    hide Sum, At;
    var claims, checks := SideClaims(cols, ms, phats, sums), SideChecks(cols, phats, gamma);
    forall i | 0 <= i < |cols| ensures SumsTo(claims[i].poly, n, claims[i].value) && VanishesOn(checks[i], n) {
      assert phats[i] == PhatsOf(cols, gamma)[i] && sums[i] == CommonCubeSums(cols, ms, gamma, n)[i];
      assert cols[i] in cols;
      HonestPhatPasses(cols[i], gamma, n);
    }
  }

  /** Completeness of one run: the honest proof's claims are true, and it is accepted when the sums agree. */
  lemma HonestRun(input: Input, gamma: F, n: nat)
    requires ValidInput(input) && CommonNv(input) <= n && AvoidsInput(input, gamma)
    ensures var phats, sums := HonestPhats(input, gamma), HonestSums(input, gamma, n);
            && ClaimsTrue(input, phats, sums, gamma, n)
            && (Verdict(input, phats, sums) == Ok(())
                <==> SideSum(input.fxs, input.mfxs, gamma) == SideSum(input.gxs, input.mgxs, gamma))
  {
    hide SideTrue, SideSum, PhatsOf, CommonCubeSums, Verdict;
    var k := |input.fxs|;
    var phats, sums := HonestPhats(input, gamma), HonestSums(input, gamma, n);
    assert phats[k..] == PhatsOf(input.gxs, gamma);
    assert sums[k..] == CommonCubeSums(input.gxs, input.mgxs, gamma, n);
    HonestSide(input.fxs, input.mfxs, phats, sums, gamma, n);
    HonestSide(input.gxs, input.mgxs, phats[k..], sums[k..], gamma, n);
    VerdictMeaning(input, phats, sums, gamma, n);
  }

  /** Acceptance at gamma, over all proofs: gamma avoids the columns and the two true sums agree. */
  lemma AcceptedMeaning(input: Input, gamma: F, n: nat)
    requires ValidInput(input) && CommonNv(input) <= n
    ensures Accepted(input, gamma, n) <==>
              && AvoidsInput(input, gamma)
              && SideSum(input.fxs, input.mfxs, gamma) == SideSum(input.gxs, input.mgxs, gamma)
  {
    hide SideSum, Verdict, ClaimsTrue, AvoidsInput;
    if Accepted(input, gamma, n) {
      var phats, sums :| Verdict(input, phats, sums) == Ok(()) && ClaimsTrue(input, phats, sums, gamma, n);
      VerdictMeaning(input, phats, sums, gamma, n);
    }
    if AvoidsInput(input, gamma) {
      HonestRun(input, gamma, n);
    }
  }

  // ---- acceptance and weights, for any activators ----

  /** Both sides' rows, weighted by multiplicity times activator, the right side with opposite weights. */
  function NetRows(input: Input): seq<Term>
    requires ValidInput(input)
  {
    AllRows(input.fxs, input.mfxs) + Negated(AllRows(input.gxs, input.mgxs))
  }

  ghost predicate EqualWeights(input: Input)
    requires ValidInput(input)
  {
    SameWeights(AllRows(input.fxs, input.mfxs), AllRows(input.gxs, input.mgxs))
  }

  /** Acceptance at gamma is a vanishing sum over the net rows. */
  lemma AcceptedVanishes(input: Input, gamma: F, n: nat)
    requires ValidInput(input) && CommonNv(input) <= n
    ensures Accepted(input, gamma, n) <==> AvoidsInput(input, gamma) && FractionSum(NetRows(input), gamma) == ZERO
    ensures AvoidsInput(input, gamma) ==> Avoids(NetRows(input), gamma)
  {
    hide SideSum, Accepted, FractionSum;
    var fs, gs := AllRows(input.fxs, input.mfxs), AllRows(input.gxs, input.mgxs);
    AcceptedMeaning(input, gamma, n);
    SideSumIsRows(input.fxs, input.mfxs, gamma);
    SideSumIsRows(input.gxs, input.mgxs, gamma);
    SidesAgree(fs, gs, gamma);
    if AvoidsInput(input, gamma) {
      RowsAvoid(input.fxs, input.mfxs, gamma);
      RowsAvoid(input.gxs, input.mgxs, gamma);
      forall t | t in Negated(gs) ensures t.value != gamma {
        var i :| 0 <= i < |gs| && Negated(gs)[i] == t;
        assert gs[i] in gs;
      }
    }
  }

  /** Completeness: equal weights are accepted at every gamma that avoids the evaluations. */
  lemma Complete(input: Input, gamma: F, n: nat)
    requires ValidInput(input) && CommonNv(input) <= n
    requires EqualWeights(input) && AvoidsInput(input, gamma)
    ensures Accepted(input, gamma, n)
  {
    hide Accepted, AvoidsInput, FractionSum, SameWeights, BookOf;
    BalancedSides(AllRows(input.fxs, input.mfxs), AllRows(input.gxs, input.mgxs));
    BalancedVanishes(NetRows(input), gamma);
    AcceptedVanishes(input, gamma, n);
  }

  /** Soundness: acceptance at as many gammas as there are values of unequal weight leaves no such value. */
  lemma Sound(input: Input, gammas: set<F>, n: nat)
    requires ValidInput(input) && CommonNv(input) <= n
    requires |gammas| >= |Unbalanced(BookOf(NetRows(input)))|
    requires forall g | g in gammas :: Accepted(input, g, n)
    ensures EqualWeights(input)
  {
    hide Accepted, FractionSum, SameWeights, BookOf, AvoidsInput;
    forall g | g in gammas ensures Avoids(NetRows(input), g) && FractionSum(NetRows(input), g) == ZERO {
      AcceptedVanishes(input, g, n);
    }
    VanishingBalances(NetRows(input), gammas);
    BalancedSides(AllRows(input.fxs, input.mfxs), AllRows(input.gxs, input.mgxs));
  }

  /** The soundness error: fewer gammas are accepted than there are values whose weights differ, if there are any. */
  lemma SoundnessError(input: Input, gammas: set<F>, n: nat)
    requires ValidInput(input) && CommonNv(input) <= n
    requires !EqualWeights(input) && forall g | g in gammas :: Accepted(input, g, n)
    ensures |gammas| < |Unbalanced(BookOf(NetRows(input)))|
  {
    if |gammas| >= |Unbalanced(BookOf(NetRows(input)))| {
      Sound(input, gammas, n);
    }
  }

  // ---- Boolean activators ----

  /** For Boolean activators these are the honest prover's weights, and only activated values can be unbalanced. */
  lemma BooleanWeights(input: Input)
    requires ValidInput(input) && BooleanInput(input)
    ensures EqualWeights(input) <==> EqualSides(input)
    ensures Unbalanced(BookOf(NetRows(input))) == Unbalanced(BookOf(NetTerms(input)))
    ensures |Unbalanced(BookOf(NetRows(input)))| <= |BookOf(NetTerms(input))|
  {
    forall v
      ensures WeightOf(AllRows(input.fxs, input.mfxs), v) == WeightOf(SideTerms(input.fxs, input.mfxs), v)
      ensures WeightOf(AllRows(input.gxs, input.mgxs), v) == WeightOf(SideTerms(input.gxs, input.mgxs), v)
    {
      SideWeight(input.fxs, input.mfxs, v);
      SideWeight(input.gxs, input.mgxs, v);
    }
    SameUnbalanced(AllRows(input.fxs, input.mfxs), AllRows(input.gxs, input.mgxs),
                   SideTerms(input.fxs, input.mfxs), SideTerms(input.gxs, input.mgxs));
  }

  lemma SameUnbalanced(fs: seq<Term>, gs: seq<Term>, fs': seq<Term>, gs': seq<Term>)
    requires forall v :: WeightOf(fs, v) == WeightOf(fs', v) && WeightOf(gs, v) == WeightOf(gs', v)
    ensures Unbalanced(BookOf(fs + Negated(gs))) == Unbalanced(BookOf(fs' + Negated(gs')))
    ensures |Unbalanced(BookOf(fs + Negated(gs)))| <= |BookOf(fs' + Negated(gs'))|
  {
    hide WeightOf, BookOf;
    var a, b := BookOf(fs + Negated(gs)), BookOf(fs' + Negated(gs'));
    BookMeaning(fs + Negated(gs));
    BookMeaning(fs' + Negated(gs'));
    forall v ensures v in Unbalanced(a) <==> v in Unbalanced(b) {
      WeightDifference(fs, gs, v);
      WeightDifference(fs', gs', v);
      assert v in Unbalanced(a) <==> WeightOf(fs + Negated(gs), v) != ZERO;
      assert v in Unbalanced(b) <==> WeightOf(fs' + Negated(gs'), v) != ZERO;
    }
    assert Unbalanced(b) <= b.Keys;
    FewerElements(Unbalanced(b), b.Keys);
    assert |b.Keys| == |b|;
  }

  lemma FewerElements(a: set<F>, b: set<F>)
    requires a <= b
    ensures |a| <= |b|
  {
    assert b == a + (b - a);
  }

  /** What the honest prover's check accepts, the verifier does, at every gamma that avoids the evaluations. */
  lemma BooleanComplete(input: Input, gamma: F, n: nat)
    requires ValidInput(input) && BooleanInput(input) && CommonNv(input) <= n
    requires EqualSides(input) && AvoidsInput(input, gamma)
    ensures Accepted(input, gamma, n)
  {
    BooleanWeights(input);
    hide Accepted, AvoidsInput, EqualSides, EqualWeights, Unbalanced, BookOf;
    Complete(input, gamma, n);
  }

  /** What is accepted at as many gammas as there are activated values passes the honest prover's check. */
  lemma BooleanSound(input: Input, gammas: set<F>, n: nat)
    requires ValidInput(input) && BooleanInput(input) && CommonNv(input) <= n
    requires |gammas| >= |BookOf(NetTerms(input))|
    requires forall g | g in gammas :: Accepted(input, g, n)
    ensures EqualSides(input)
  {
    BooleanWeights(input);
    hide Accepted, EqualSides, EqualWeights, Unbalanced, BookOf;
    Sound(input, gammas, n);
  }

  /** A whole honest run: the prover, the proof it leaves, and the verifier reading that proof. */
  method Run(input: Input, gamma: F, n: nat) returns (r: Result<()>)
    requires ValidInput(input) && CommonNv(input) <= n && AvoidsInput(input, gamma)
    ensures r == Ok(()) <==> SideSum(input.fxs, input.mfxs, gamma) == SideSum(input.gxs, input.mgxs, gamma)
    ensures EqualWeights(input) || (BooleanInput(input) && EqualSides(input)) ==> r == Ok(())
  {
    hide SideSum, EqualSides, EqualWeights, AvoidsInput, ClaimsTrue, HonestPhats, HonestSums, Verdict, CommonNv,
         BooleanInput;
    var proof := HonestProof(input, gamma, n);
    r := Check(proof, input, gamma);
    HonestRun(input, gamma, n);
    if BooleanInput(input) && EqualSides(input) {
      BooleanWeights(input);
    }
    if EqualWeights(input) {
      Complete(input, gamma, n);
      AcceptedMeaning(input, gamma, n);
    }
  }

  /** The proof an honest prover leaves behind. */
  method HonestProof(input: Input, gamma: F, n: nat) returns (proof: Proof)
    requires ValidSide(input.fxs, input.mfxs) && ValidSide(input.gxs, input.mgxs)
    ensures proof == Proof(HonestPhats(input, gamma), HonestSums(input, gamma, n))
  {
    hide PhatsOf, HonestClaims, SideChecks, HonestSums, ClaimedOver, HonestClaim, PhatEvals, PhatCheck, Summand,
         CubeEvals, Sum, TrueSides;
    var prover := new ArgProver();
    prover.Prove(input, gamma);
    HonestSumsClaimed(input, gamma, n);
    assert prover.sumClaims == HonestClaims(input.fxs, input.mfxs, gamma) + HonestClaims(input.gxs, input.mgxs, gamma);
    assert prover.commitments == HonestPhats(input, gamma);
    proof := Proof(prover.commitments, ClaimedOver(prover.sumClaims, n));
  }

  method Check(proof: Proof, input: Input, gamma: F) returns (r: Result<()>)
    ensures r == Verdict(input, proof.commitments, proof.claimedSums)
  {
    hide Verdict;
    var verifier := new ArgVerifier(proof);
    r := verifier.Verify(input, gamma);
  }

  lemma HonestSumsClaimed(input: Input, gamma: F, n: nat)
    requires |input.fxs| <= |input.mfxs| && |input.gxs| <= |input.mgxs|
    ensures ClaimedOver(HonestClaims(input.fxs, input.mfxs, gamma) + HonestClaims(input.gxs, input.mgxs, gamma), n)
         == HonestSums(input, gamma, n)
  {
    hide Sum, HonestClaim;
  }

  /** The sums shipped with the proof: each claimed polynomial summed over the common cube. */
  function ClaimedOver(claims: seq<SumClaim>, n: nat): (r: seq<F>)
    ensures |r| == |claims| && forall i | 0 <= i < |claims| :: r[i] == Sum(CubeEvals(claims[i].poly, n))
  {
    seq(|claims|, i requires 0 <= i < |claims| => Sum(CubeEvals(claims[i].poly, n)))
  }

  /** The check needs Boolean activators: with two left and zero right it passes, yet nothing is accepted. */
  lemma NonBooleanActivator(v: F, gamma: F, n: nat)
    ensures var input := Input([Column(0, [v], Some([2]))], [Column(0, [v], Some([ZERO]))], [None], [None]);
            ValidInput(input) && EqualSides(input) && !Accepted(input, gamma, n)
  {
    var two, zero := Column(0, [v], Some([2])), Column(0, [v], Some([ZERO]));
    var input := Input([two], [zero], [None], [None]);
    assert ActiveTerms(two, None, 1) == ActiveTerms(two, None, 0) + [] == [];
    assert ActiveTerms(zero, None, 1) == ActiveTerms(zero, None, 0) + [] == [];
    SingleRow(two, v, 2, gamma);
    SingleRow(zero, v, ZERO, gamma);
    AcceptedMeaning(input, gamma, n);
    assert two in input.fxs && v in two.data;
    if v != gamma {
      SubZero(v, gamma);
      MulZero(Inv(Sub(v, gamma)));
      if Fraction(Term(v, 2), gamma) == ZERO {
        FractionZero(Term(v, 2), gamma);
      }
    }
  }

  lemma SingleRow(col: Column, v: F, a: F, gamma: F)
    requires col == Column(0, [v], Some([a]))
    ensures SideSum([col], [None], gamma) == Fraction(Term(v, a), gamma)
  {
    hide Add, Fraction;
    MulOne(a);
    var rows := RowTerms(col, None);
    var ms: seq<Multiplicity> := [None];
    assert rows == [Term(v, a)] && rows[..0] == [];
    AddZero(Fraction(rows[0], gamma));
    assert FractionSum(rows, gamma) == Fraction(rows[0], gamma);
    AddZero(FractionSum(rows, gamma));
    assert [col][..0] == [] && ms[..0] == [];
    assert SideSum([col][..0], ms[..0], gamma) == ZERO;
  }
}
