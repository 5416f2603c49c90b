/** Column inclusion by a keyed sumcheck: all-ones on the included column against counted multiplicities. */
module Lookup {
  import opened Options
  import opened Powers
  import opened PrimeField
  import opened FieldSums
  import opened Bookkeeping
  import opened Polynomials
  import opened Columns
  import opened KeyedSumcheck
  import opened HonestProver
  import opened LogUp

  // ---- counting ----

  /** Active for the counters: no activator, or an activator that is not zero. */
  predicate ActiveAt(col: Column, i: nat)
    requires col.Valid() && i < |col.data|
  {
    col.activator.None? || col.activator.value[i] != ZERO
  }

  /** How many of the first `n` rows are active and hold `v`. */
  function Count(col: Column, v: F, n: nat): (r: nat)
    requires col.Valid() && n <= |col.data|
    ensures r <= n
  {
    if n == 0 then 0
    else
      var hit := ActiveAt(col, n - 1) && col.data[n - 1] == v;
      Count(col, v, n - 1) + if hit then 1 else 0
  }

  lemma {:induction false} CountPositive(col: Column, v: F, n: nat)
    requires col.Valid() && n <= |col.data|
    ensures Count(col, v, n) > 0 <==> exists i | 0 <= i < n :: ActiveAt(col, i) && col.data[i] == v
  {
    if n > 0 {
      CountPositive(col, v, n - 1);
    }
  }

  /** Any nonzero activator makes a row count, not only one. */
  lemma NonzeroCounts(v: F)
    ensures Count(Column(0, [v], Some([2])), v, 1) == 1 && Count(Column(0, [v], Some([ZERO])), v, 1) == 0
    ensures Count(Column(0, [v], None), v, 1) == 1
  {
    assert Count(Column(0, [v], Some([2])), v, 0) == 0;
  }

  function Occurrences(col: Column, v: F): nat
    requires col.Valid()
  {
    Count(col, v, |col.data|)
  }

  method MultiplicityCount(col: Column) returns (counts: map<F, nat>)
    requires col.Valid()
    ensures forall v :: v in counts <==> Occurrences(col, v) > 0
    ensures forall v | v in counts :: counts[v] == Occurrences(col, v)
  {
    counts := map[];
    for i := 0 to |col.data|
      invariant forall v :: v in counts <==> Count(col, v, i) > 0
      invariant forall v | v in counts :: counts[v] == Count(col, v, i)
    {
      var val := col.data[i];
      if col.activator.Some? && col.activator.value[i] == ZERO {
        continue;
      }
      counts := counts[val := (if val in counts then counts[val] else 0) + 1];
    }
  }

  /** The advice for row `i`: the whole count of its value on the first active occurrence, zero elsewhere. */
  function Advice(included: Column, super: Column, i: nat): F
    requires included.Valid() && super.Valid() && i < |super.data|
  {
    if ActiveAt(super, i) && Count(super, super.data[i], i) == 0
    then Of(Occurrences(included, super.data[i])) else ZERO
  }

  /** The computed advice for one included column. */
  ghost predicate IsAdvice(included: Column, super: Column, mults: Evals)
    requires included.Valid() && super.Valid()
  {
    |mults| == |super.data| && forall i | 0 <= i < |mults| :: mults[i] == Advice(included, super, i)
  }

  method CalcInclusionMultiplicity(included: Column, super: Column) returns (mults: Evals)
    requires included.Valid() && super.Valid()
    ensures IsAdvice(included, super, mults)
    ensures forall i | 0 <= i < |mults| ::
              mults[i] ==
                if ActiveAt(super, i) && forall j | 0 <= j < i && ActiveAt(super, j) :: super.data[j] != super.data[i]
                then Of(Occurrences(included, super.data[i])) else ZERO
  {
    hide Of;
    var counts := MultiplicityCount(included);
    var out: seq<F> := [];
    for i := 0 to |super.data|
      invariant |out| == i && forall k | 0 <= k < i :: out[k] == Advice(included, super, k)
      invariant forall v :: v in counts <==> Occurrences(included, v) > 0
      invariant forall v | v in counts :: counts[v] == if Count(super, v, i) == 0 then Occurrences(included, v) else 0
    {
      var val := super.data[i];
      if super.activator.Some? && super.activator.value[i] == ZERO {
        out := out + [ZERO];
        continue;
      }
      if val in counts {
        OfF(ZERO);
        out := out + [Of(counts[val])];
        counts := counts[val := 0];
      } else {
        OfF(ZERO);
        out := out + [ZERO];
      }
    }
    mults := out;
    forall i | 0 <= i < |mults|
      ensures Count(super, super.data[i], i) == 0 <==>
                forall j | 0 <= j < i && ActiveAt(super, j) :: super.data[j] != super.data[i]
    {
      CountPositive(super, super.data[i], i);
    }
  }

  // ---- what the counts mean as weights ----

  function Ones(col: Column): (r: Evals)
    ensures |r| == |col.data| && forall i | 0 <= i < |r| :: r[i] == ONE
  {
    seq(|col.data|, i => ONE)
  }

  /** With all-ones multiplicities a value weighs as much as it occurs. */
  lemma {:induction false} OnesWeight(col: Column, v: F, n: nat)
    requires col.Valid() && col.BooleanActivator() && n <= |col.data|
    ensures WeightOf(ActiveTerms(col, Some(Ones(col)), n), v) == Of(Count(col, v, n))
  {
    hide Of, Add;
    OfF(ZERO);
    OfF(ONE);
    if n > 0 {
      OnesWeight(col, v, n - 1);
      var before := ActiveTerms(col, Some(Ones(col)), n - 1);
      WeightStep(col, Some(Ones(col)), v, n);
      OfPlus(Count(col, v, n - 1), 1);
      AddZero(Of(Count(col, v, n - 1)));
    }
  }

  lemma WeightStep(col: Column, m: Multiplicity, v: F, n: nat)
    requires col.Valid() && Fits(m, col) && col.BooleanActivator() && 0 < n <= |col.data|
    ensures WeightOf(ActiveTerms(col, m, n), v)
         == Add(WeightOf(ActiveTerms(col, m, n - 1), v),
                if ActiveAt(col, n - 1) && col.data[n - 1] == v then RowMultiplicity(m, n - 1) else ZERO)
  {
    hide Add;
    var before := ActiveTerms(col, m, n - 1);
    AddZero(WeightOf(before, v));
    if RowActivator(col, n - 1) == ONE {
      var t := Term(col.data[n - 1], RowMultiplicity(m, n - 1));
      assert (before + [t])[..|before|] == before;
    } else {
      assert col.activator.value[n - 1] in col.activator.value;
      assert before + [] == before;
    }
  }

  /** A value's advice adds up to its count in the included column, once it occurs actively in the super column. */
  lemma {:induction false} AdviceWeight(included: Column, super: Column, mults: Evals, v: F, n: nat)
    requires included.Valid() && super.Valid() && super.BooleanActivator() && n <= |super.data|
    requires IsAdvice(included, super, mults)
    ensures WeightOf(ActiveTerms(super, Some(mults), n), v)
         == if Count(super, v, n) > 0 then Of(Occurrences(included, v)) else ZERO
  {
    hide Of, Add;
    if n > 0 {
      AdviceWeight(included, super, mults, v, n - 1);
      WeightStep(super, Some(mults), v, n);
      AddZero(WeightOf(ActiveTerms(super, Some(mults), n - 1), v));
      AddZero(mults[n - 1]);
    }
  }

  /** Without an active occurrence in the super column, no multiplicities give a value any weight. */
  lemma {:induction false} AbsentWeight(super: Column, m: Multiplicity, v: F, n: nat)
    requires super.Valid() && Fits(m, super) && super.BooleanActivator() && n <= |super.data|
    requires Count(super, v, n) == 0
    ensures WeightOf(ActiveTerms(super, m, n), v) == ZERO
  {
    hide Add;
    if n > 0 {
      AbsentWeight(super, m, v, n - 1);
      WeightStep(super, m, v, n);
      AddZero(ZERO);
    }
  }

  // ---- inclusion ----

  ghost predicate Included(included: Column, super: Column)
    requires included.Valid() && super.Valid()
  {
    forall v | Occurrences(included, v) > 0 :: Occurrences(super, v) > 0
  }

  ghost predicate HasActive(col: Column, v: F)
    requires col.Valid()
  {
    exists i | 0 <= i < |col.data| :: ActiveAt(col, i) && col.data[i] == v
  }

  /** Inclusion row by row: every active row of the one has an active row of the other with the same value. */
  lemma InclusionMeaning(included: Column, super: Column)
    requires included.Valid() && super.Valid()
    ensures Included(included, super)
       <==> forall i | 0 <= i < |included.data| && ActiveAt(included, i) :: HasActive(super, included.data[i])
  {
    forall v ensures Occurrences(included, v) > 0 <==> HasActive(included, v) {
      CountPositive(included, v, |included.data|);
    }
    forall v ensures Occurrences(super, v) > 0 <==> HasActive(super, v) {
      CountPositive(super, v, |super.data|);
    }
  }

  /** The set of active elements. */
  method EffectiveSet(col: Column) returns (members: set<F>)
    requires col.Valid()
    ensures forall v :: v in members <==> Occurrences(col, v) > 0
  {
    members := {};
    for i := 0 to |col.data|
      invariant forall v :: v in members <==> Count(col, v, i) > 0
    {
      if col.activator.None? || col.activator.value[i] != ZERO {
        members := members + {col.data[i]};
      }
    }
  }

  /** The honest check of the lookup: membership of every active element of every included column. */
  method HonestLookupCheck(includedCols: seq<Column>, super: Column) returns (r: HonestResult)
    requires super.Valid() && forall c | c in includedCols :: c.Valid()
    ensures r == if forall c | c in includedCols :: Included(c, super) then Passed else Failed(FalseClaim)
  {
    var members := EffectiveSet(super);
    for k := 0 to |includedCols|
      invariant forall j | 0 <= j < k :: Included(includedCols[j], super)
    {
      var col := includedCols[k];
      assert col in includedCols;
      var elements := EffectiveSet(col);
      if !(elements <= members) {
        assert !Included(col, super);
        return Failed(FalseClaim);
      }
    }
    r := Passed;
  }

  // ---- the keyed sumcheck a lookup becomes ----

  function SomeAll(mults: seq<Evals>): (r: seq<Multiplicity>)
    ensures |r| == |mults| && forall i | 0 <= i < |r| :: r[i] == Some(mults[i])
  {
    seq(|mults|, i requires 0 <= i < |mults| => Some(mults[i]))
  }

  function AllOnes(cols: seq<Column>): (r: seq<Multiplicity>)
    ensures |r| == |cols| && forall i | 0 <= i < |r| :: r[i] == Some(Ones(cols[i]))
  {
    seq(|cols|, i requires 0 <= i < |cols| => Some(Ones(cols[i])))
  }

  function KeyedInput(includedCols: seq<Column>, super: Column, mults: seq<Evals>): Input {
    Input(includedCols, [super], AllOnes(includedCols), SomeAll(mults))
  }

  /** One committed multiplicity per included column, then the keyed sumcheck on them. */
  method LookupProve(prover: ArgProver, includedCols: seq<Column>, super: Column, gamma: F) returns (mults: seq<Evals>)
    requires super.Valid() && includedCols != [] && forall i | 0 <= i < |includedCols| :: includedCols[i].Valid()
    modifies prover
    ensures |mults| == |includedCols| && forall i | 0 <= i < |mults| :: IsAdvice(includedCols[i], super, mults[i])
    ensures prover.commitments
         == old(prover.commitments) + mults + HonestPhats(KeyedInput(includedCols, super, mults), gamma)
  {
    hide Advice, HonestPhats, TrueSides, PhatsOf, HonestClaims, SideChecks, Of;
    mults := [];
    for i := 0 to |includedCols|
      invariant |mults| == i && forall k | 0 <= k < i :: IsAdvice(includedCols[k], super, mults[k])
      invariant prover.commitments == old(prover.commitments) + mults
    {
      var m := CalcInclusionMultiplicity(includedCols[i], super);
      var poly := prover.TrackAndCommit(m);
      mults := mults + [m];
    }
    prover.Prove(KeyedInput(includedCols, super, mults), gamma);
    HonestPhatsSplit(KeyedInput(includedCols, super, mults), gamma);
  }

  lemma HonestPhatsSplit(input: Input, gamma: F)
    ensures HonestPhats(input, gamma) == PhatsOf(input.fxs, gamma) + PhatsOf(input.gxs, gamma)
  {
  }

  /** The verifier reads the multiplicities' commitments first, one for each included column. */
  method LookupVerify(verifier: ArgVerifier, includedCols: seq<Column>, super: Column, gamma: F) returns (r: Result<()>)
    modifies verifier
    ensures var k := |includedCols|;
            r == if |old(verifier.phats)| < k then Err(MissingCommitment)
                 else Verdict(KeyedInput(includedCols, super, old(verifier.phats)[..k]),
                              old(verifier.phats)[k..], old(verifier.sums))
  {
    hide Verdict;
    var mults: seq<Evals> := [];
    for i := 0 to |includedCols|
      invariant i <= |old(verifier.phats)| && mults == old(verifier.phats)[..i]
      invariant verifier.phats == old(verifier.phats)[i..] && verifier.sums == old(verifier.sums)
    {
      var com := verifier.TrackNextMvCom();
      if com.Err? {
        return Err(com.error);
      }
      mults := mults + [com.value.evals];
    }
    r := verifier.Verify(KeyedInput(includedCols, super, mults), gamma);
  }

  /** One super column meets a list of multiplicities: only a single included column can ever be accepted. */
  lemma LookupArity(includedCols: seq<Column>, super: Column, mults: seq<Evals>, phats: seq<Evals>, sums: seq<F>)
    requires |mults| == |includedCols| != 1
    ensures Verdict(KeyedInput(includedCols, super, mults), phats, sums)
         == Err(if includedCols == [] then EmptyInput else InputLengthMismatch(1, |includedCols|))
  {
  }

  ghost predicate LookupColumns(included: Column, super: Column) {
    && included.Valid() && included.BooleanActivator()
    && super.Valid() && super.BooleanActivator()
  }

  lemma SingleSide(col: Column, m: Multiplicity)
    requires col.Valid() && Fits(m, col)
    ensures SideTerms([col], [m]) == ActiveTerms(col, m, |col.data|)
  {
    var cols, ms := [col], [m];
    assert cols[..0] == [] && ms[..0] == [];
    assert SideTerms(cols[..0], ms[..0]) == [];
    assert [] + ActiveTerms(col, m, |col.data|) == ActiveTerms(col, m, |col.data|);
  }

  lemma LookupSides(included: Column, super: Column, mults: Evals)
    requires LookupColumns(included, super) && |mults| == |super.data|
    ensures var input := KeyedInput([included], super, [mults]);
            && ValidInput(input) && BooleanInput(input)
            && (EqualSides(input) <==>
                  forall v ::
                    Of(Occurrences(included, v)) == WeightOf(ActiveTerms(super, Some(mults), |super.data|), v))
  {
    var input := KeyedInput([included], super, [mults]);
    assert input.fxs == [included] && input.gxs == [super];
    assert input.mfxs == [Some(Ones(included))] && input.mgxs == [Some(mults)];
    SingleSide(included, Some(Ones(included)));
    SingleSide(super, Some(mults));
    forall v ensures WeightOf(SideTerms(input.fxs, input.mfxs), v) == Of(Occurrences(included, v)) {
      OnesWeight(included, v, |included.data|);
    }
  }

  /** With the computed advice the sides are equal exactly when every missing value occurs a multiple of `P` times. */
  lemma AdviceBalances(included: Column, super: Column, mults: Evals)
    requires LookupColumns(included, super)
    requires IsAdvice(included, super, mults)
    ensures EqualSidesOf(included, super, mults)
       <==> forall v | Occurrences(super, v) == 0 :: Occurrences(included, v) % P == 0
  {
    hide WeightOf, Of, EqualSides;
    LookupSides(included, super, mults);
    forall v
      ensures WeightOf(ActiveTerms(super, Some(mults), |super.data|), v)
           == if Occurrences(super, v) > 0 then Of(Occurrences(included, v)) else ZERO
      ensures Of(Occurrences(included, v)) == Occurrences(included, v) % P
    {
      AdviceWeight(included, super, mults, v, |super.data|);
      OfRemainder(Occurrences(included, v));
    }
  }

  ghost predicate EqualSidesOf(included: Column, super: Column, mults: Evals)
    requires LookupColumns(included, super) && |mults| == |super.data|
  {
    LookupSides(included, super, mults);
    EqualSides(KeyedInput([included], super, [mults]))
  }

  /** With fewer rows than the characteristic, inclusion is what the advice proves. */
  lemma AdviceIsInclusion(included: Column, super: Column, mults: Evals)
    requires LookupColumns(included, super) && |included.data| < P
    requires IsAdvice(included, super, mults)
    ensures EqualSidesOf(included, super, mults) <==> Included(included, super)
  {
    AdviceBalances(included, super, mults);
    forall v ensures Occurrences(included, v) % P == 0 <==> Occurrences(included, v) == 0 {
      OfF(Occurrences(included, v));
      OfRemainder(Occurrences(included, v));
    }
  }

  /** `P` active rows of a value, in a column of at least `P` rows. */
  function FullTurn(nv: nat, v: F): (r: Column)
    ensures r.Valid() && r.BooleanActivator() && |r.data| == Pow2(nv)
    ensures forall i | 0 <= i < |r.data| :: r.data[i] == v && (ActiveAt(r, i) <==> i < P)
  {
    var activator := seq(Pow2(nv), i requires 0 <= i => if i < P then ONE else ZERO);
    Column(nv, seq(Pow2(nv), i => v), Some(activator))
  }

  lemma {:induction false} FullTurnCount(nv: nat, v: F, n: nat, u: F)
    requires n <= Pow2(nv)
    ensures Count(FullTurn(nv, v), u, n) == if u != v then 0 else if n < P then n else P
  {
    hide FullTurn;
    if n > 0 {
      FullTurnCount(nv, v, n - 1, u);
    }
  }

  /** With as many rows as the characteristic, a missing value can go unnoticed: its count is zero in the field. */
  lemma MissingUnnoticed(nv: nat, v: F, w: F)
    requires Pow2(nv) >= P && v != w
    ensures var included, super := FullTurn(nv, v), Column(0, [w], None);
            && LookupColumns(included, super) && IsAdvice(included, super, [ZERO])
            && EqualSidesOf(included, super, [ZERO]) && !Included(included, super)
  {
    var included, super := FullTurn(nv, v), Column(0, [w], None);
    FullTurnCount(nv, v, Pow2(nv), v);
    FullTurnCount(nv, v, Pow2(nv), w);
    assert Occurrences(included, v) == P && Occurrences(included, w) == 0;
    assert Occurrences(super, v) == 0;
    OfF(ZERO);
    hide FullTurn, Of;
    forall u ensures Occurrences(included, u) % P == 0 {
      FullTurnCount(nv, v, Pow2(nv), u);
      DivisionUnique(P, P, 1, 0);
      DivisionUnique(P, 0, 0, 0);
    }
    AdviceBalances(included, super, [ZERO]);
  }

  /** Any multiplicities at all that balance the sides prove inclusion. */
  lemma HintedLookupSound(included: Column, super: Column, mults: Evals)
    requires LookupColumns(included, super) && |included.data| < P && |mults| == |super.data|
    requires EqualSidesOf(included, super, mults)
    ensures Included(included, super)
  {
    hide WeightOf, Of;
    LookupSides(included, super, mults);
    forall v | Occurrences(included, v) > 0 ensures Occurrences(super, v) > 0 {
      if Occurrences(super, v) == 0 {
        AbsentWeight(super, Some(mults), v, |super.data|);
        OfF(Occurrences(included, v));
      }
    }
  }

  /** Whatever the sizes, the advice of an included column balances the sides. */
  lemma IncludedBalances(included: Column, super: Column, mults: Evals)
    requires LookupColumns(included, super) && Included(included, super)
    requires IsAdvice(included, super, mults)
    ensures EqualSidesOf(included, super, mults)
  {
    hide EqualSidesOf, IsAdvice, Of;
    AdviceBalances(included, super, mults);
    OfRemainder(ZERO);
    OfF(ZERO);
  }

  /** Lookup completeness: an included column is accepted, with the advice, at every gamma off the columns. */
  lemma LookupComplete(included: Column, super: Column, mults: Evals, gamma: F, n: nat)
    requires LookupColumns(included, super) && included.nv <= n && super.nv <= n
    requires IsAdvice(included, super, mults)
    requires Included(included, super) && gamma !in included.data && gamma !in super.data
    ensures ValidInput(KeyedInput([included], super, [mults]))
    ensures Accepted(KeyedInput([included], super, [mults]), gamma, n)
  {
    hide Accepted, EqualSides, Advice, Included, Of, WeightOf;
    var input := KeyedInput([included], super, [mults]);
    LookupSides(included, super, mults);
    IncludedBalances(included, super, mults);
    assert CommonNv(input) <= n by {
      assert input.fxs == [included] && input.gxs == [super];
    }
    BooleanComplete(input, gamma, n);
  }

  /** Lookup soundness: whatever multiplicities were committed, enough accepted gammas prove inclusion. */
  lemma LookupSound(included: Column, super: Column, mults: Evals, gammas: set<F>, n: nat)
    requires LookupColumns(included, super) && |included.data| < P && |mults| == |super.data|
    requires included.nv <= n && super.nv <= n
    requires ValidInput(KeyedInput([included], super, [mults]))
    requires |gammas| >= |BookOf(NetTerms(KeyedInput([included], super, [mults])))|
    requires forall g | g in gammas :: Accepted(KeyedInput([included], super, [mults]), g, n)
    ensures Included(included, super)
  {
    hide Accepted, EqualSides;
    var input := KeyedInput([included], super, [mults]);
    LookupSides(included, super, mults);
    assert CommonNv(input) <= n by {
      assert input.fxs == [included] && input.gxs == [super];
    }
    BooleanSound(input, gammas, n);
    HintedLookupSound(included, super, mults);
  }
}
