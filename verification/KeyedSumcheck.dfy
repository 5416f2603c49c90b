/**
 * The keyed sumcheck: the prover commits to `phat = 1 / (p - gamma)` for every column, claims the weighted sum of
 * `phat`, and the verifier compares the two sides after normalising for the sizes of the columns.
 */
module KeyedSumcheck {
  import opened Options
  import opened Powers
  import opened PrimeField
  import opened FieldSums
  import opened Polynomials
  import opened Columns

  datatype Input = Input(fxs: seq<Column>, gxs: seq<Column>, mfxs: seq<Multiplicity>, mgxs: seq<Multiplicity>)

  datatype SumClaim = SumClaim(poly: VPoly, value: F)

  /** What the prover ships: commitments and claimed sums, in the order they are read. */
  datatype Proof = Proof(commitments: seq<Evals>, claimedSums: seq<F>)

  datatype Error =
    | EmptyInput
    | InputLengthMismatch(expected: nat, actual: nat)
    | MissingCommitment
    | MissingClaimedSum
    | SumsDiffer(lhs: F, rhs: F)

  datatype Result<+T> = Ok(value: T) | Err(error: Error)

  // ---- the virtual polynomials of one column ----

  /** The four arms: with or without activator, with or without multiplicity. */
  function Summand(col: Column, m: Multiplicity, phat: VPoly): VPoly {
    match (col.activator, m)
    case (Some(a), Some(w)) => Times(Times(phat, Base(w)), Base(a))
    case (None, Some(w)) => Times(phat, Base(w))
    case (Some(a), None) => Times(phat, Base(a))
    case (None, None) => phat
  }

  /** `p * phat - gamma * phat - 1`. */
  function PhatCheck(p: VPoly, phat: VPoly, gamma: F): VPoly {
    Shifted(Minus(Times(p, phat), Scaled(phat, gamma)), Neg(ONE))
  }

  /** The inverses of `p - gamma`, with zero where gamma hits an evaluation. */
  function PhatEvals(col: Column, gamma: F): (r: Evals)
    ensures |r| == |col.data| && forall i | 0 <= i < |r| :: r[i] == Inv(Sub(col.data[i], gamma))
  {
    seq(|col.data|, i requires 0 <= i < |col.data| => Inv(Sub(col.data[i], gamma)))
  }

  function HonestClaim(col: Column, m: Multiplicity, gamma: F): SumClaim {
    var poly := Summand(col, m, Base(PhatEvals(col, gamma)));
    SumClaim(poly, Sum(CubeEvals(poly, col.nv)))
  }

  // ---- what a claim means ----

  /** `phat` is the inverse of `p - gamma` at every point of the cube. */
  ghost predicate Pinned(col: Column, phat: Evals, gamma: F, n: nat) {
    forall i | 0 <= i < Pow2(n) :: At(Base(phat), i) == Inv(Sub(At(Base(col.data), i), gamma))
  }

  /** The inverses themselves, zeros included, are pinned. */
  lemma HonestPhatPinned(col: Column, gamma: F, n: nat)
    requires col.Valid()
    ensures Pinned(col, PhatEvals(col, gamma), gamma, n)
  {
    hide Sub, Inv, Wrap;
  }

  function Fractions(ts: seq<Term>, gamma: F): (r: seq<F>)
    ensures |r| == |ts| && forall i | 0 <= i < |r| :: r[i] == Fraction(ts[i], gamma)
  {
    seq(|ts|, i requires 0 <= i < |ts| => Fraction(ts[i], gamma))
  }

  lemma {:induction false} SumOfFractions(ts: seq<Term>, gamma: F)
    ensures Sum(Fractions(ts, gamma)) == FractionSum(ts, gamma)
  {
    if ts != [] {
      SumOfFractions(ts[..|ts| - 1], gamma);
      assert Fractions(ts, gamma)[..|ts| - 1] == Fractions(ts[..|ts| - 1], gamma);
    }
  }

  /** `(phat * m) * a` is the fraction with weight `m * a`, whichever factors are present. */
  lemma SummandValue(col: Column, m: Multiplicity, phat: Evals, gamma: F, n: nat, i: nat)
    requires col.Valid() && Fits(m, col) && Pinned(col, phat, gamma, n) && i < Pow2(n)
    ensures At(Summand(col, m, Base(phat)), i) == Fraction(RowTerms(col, m)[Wrap(i, |col.data|)], gamma)
  {
    hide Sub, Mul, Inv, Wrap;
    var k := Wrap(i, |col.data|);
    var ph := At(Base(phat), i);
    var w, a := RowMultiplicity(m, k), RowActivator(col, k);
    MulAssoc(ph, w, a);
    MulComm(ph, Mul(w, a));
    MulOne(w);
    MulOne(a);
    MulOne(ph);
    MulComm(ph, w);
    MulComm(ph, a);
    if m.Some? {
      assert At(Times(Base(phat), Base(m.value)), i) == Mul(ph, w);
    }
  }

  /** A true sum claim over `n` variables is the column's sum, doubled once per extra variable. */
  lemma ColumnClaim(col: Column, m: Multiplicity, phat: Evals, gamma: F, n: nat)
    requires col.Valid() && Fits(m, col) && col.nv <= n && Pinned(col, phat, gamma, n)
    ensures Sum(CubeEvals(Summand(col, m, Base(phat)), n))
         == Mul(Of(Pow2(n - col.nv)), FractionSum(RowTerms(col, m), gamma))
  {
    hide Sum, FractionSum, Fraction, Mul, Of, Wrap;
    var ys, xs := CubeEvals(Summand(col, m, Base(phat)), n), Fractions(RowTerms(col, m), gamma);
    forall i | 0 <= i < |ys| ensures ys[i] == xs[Wrap(i, |xs|)] {
      SummandValue(col, m, phat, gamma, n, i);
    }
    RepeatedSum(ys, xs, col.nv, n);
    SumOfFractions(RowTerms(col, m), gamma);
  }

  /** The claimed value is the sum of the claimed polynomial, and that is the column's weighted sum of fractions. */
  ghost predicate TrueClaim(c: SumClaim, col: Column, m: Multiplicity, gamma: F)
    requires col.Valid() && Fits(m, col)
  {
    SumsTo(c.poly, col.nv, c.value) && c.value == FractionSum(RowTerms(col, m), gamma)
  }

  lemma HonestClaimIsTrue(col: Column, m: Multiplicity, gamma: F)
    requires col.Valid() && Fits(m, col)
    ensures TrueClaim(HonestClaim(col, m, gamma), col, m, gamma)
  {
    OfF(ONE);
    hide Sum, CubeEvals, Summand, PhatEvals, FractionSum, Mul, Of, Pinned;
    HonestPhatPinned(col, gamma, col.nv);
    ColumnClaim(col, m, PhatEvals(col, gamma), gamma, col.nv);
    MulOne(FractionSum(RowTerms(col, m), gamma));
  }

  /** One true claim per column, in order. */
  ghost predicate TrueClaims(claims: seq<SumClaim>, cols: seq<Column>, ms: seq<Multiplicity>, gamma: F)
    requires Paired(cols, ms)
  {
    |claims| == |cols| && forall i | 0 <= i < |cols| :: TrueClaim(claims[i], cols[i], ms[i], gamma)
  }

  /** From position `n` on, one true claim for each column of the left side, then of the right side. */
  ghost predicate TrueSides(claims: seq<SumClaim>, n: nat, input: Input, gamma: F)
    requires Paired(input.fxs, input.mfxs) && Paired(input.gxs, input.mgxs)
  {
    var k := n + |input.fxs|;
    && |claims| == k + |input.gxs|
    && TrueClaims(claims[n..k], input.fxs, input.mfxs, gamma) && TrueClaims(claims[k..], input.gxs, input.mgxs, gamma)
  }

  lemma HonestClaimsAreTrue(cols: seq<Column>, ms: seq<Multiplicity>, gamma: F)
    requires Paired(cols, ms)
    ensures TrueClaims(HonestClaims(cols, ms, gamma), cols, ms, gamma)
  {
    hide TrueClaim, HonestClaim;
    forall i | 0 <= i < |cols| ensures TrueClaim(HonestClaims(cols, ms, gamma)[i], cols[i], ms[i], gamma) {
      HonestClaimIsTrue(cols[i], ms[i], gamma);
    }
  }

  // ---- whole sides ----

  function PhatsOf(cols: seq<Column>, gamma: F): (r: seq<Evals>)
    ensures |r| == |cols| && forall i | 0 <= i < |cols| :: r[i] == PhatEvals(cols[i], gamma)
  {
    seq(|cols|, i requires 0 <= i < |cols| => PhatEvals(cols[i], gamma))
  }

  function HonestClaims(cols: seq<Column>, ms: seq<Multiplicity>, gamma: F): (r: seq<SumClaim>)
    requires |cols| <= |ms|
    ensures |r| == |cols| && forall i | 0 <= i < |cols| :: r[i] == HonestClaim(cols[i], ms[i], gamma)
  {
    seq(|cols|, i requires 0 <= i < |cols| => HonestClaim(cols[i], ms[i], gamma))
  }

  function SideClaims(cols: seq<Column>, ms: seq<Multiplicity>, phats: seq<Evals>, sums: seq<F>): (r: seq<SumClaim>)
    requires |cols| <= |ms| && |cols| <= |phats| && |cols| <= |sums|
    ensures |r| == |cols|
    ensures forall i | 0 <= i < |cols| :: r[i] == SumClaim(Summand(cols[i], ms[i], Base(phats[i])), sums[i])
  {
    seq(|cols|, i requires 0 <= i < |cols| => SumClaim(Summand(cols[i], ms[i], Base(phats[i])), sums[i]))
  }

  function SideChecks(cols: seq<Column>, phats: seq<Evals>, gamma: F): (r: seq<VPoly>)
    requires |cols| <= |phats|
    ensures |r| == |cols|
    ensures forall i | 0 <= i < |cols| :: r[i] == PhatCheck(Base(cols[i].data), Base(phats[i]), gamma)
  {
    seq(|cols|, i requires 0 <= i < |cols| => PhatCheck(Base(cols[i].data), Base(phats[i]), gamma))
  }

  function MaxNv(cols: seq<Column>): (r: nat)
    ensures forall c | c in cols :: c.nv <= r
    ensures cols != [] ==> exists c | c in cols :: c.nv == r
  {
    if cols == [] then 0
    else
      var n := |cols| - 1;
      var r := MaxNv(cols[..n]);
      assert cols == cols[..n] + [cols[n]];
      assert cols[n] in cols;
      if r < cols[n].nv || n == 0 then cols[n].nv else r
  }

  /** Claimed sums brought down to the size of the largest column. */
  function NormalisedSum(cols: seq<Column>, sums: seq<F>, maxNv: nat): F
    requires |cols| <= |sums| && forall c | c in cols :: c.nv <= maxNv
  {
    if cols == [] then ZERO
    else
      var n := |cols| - 1;
      assert cols[n] in cols;
      Add(NormalisedSum(cols[..n], sums, maxNv), Div(sums[n], Of(Pow2(maxNv - cols[n].nv))))
  }

  lemma NormalisedNone(sums: seq<F>, maxNv: nat)
    ensures NormalisedSum([], sums, maxNv) == ZERO
  {
  }

  lemma NormalisedStep(cols: seq<Column>, sums: seq<F>, maxNv: nat, i: nat)
    requires i < |cols| && i < |sums| && forall c | c in cols :: c.nv <= maxNv
    ensures cols[i].nv <= maxNv
    ensures NormalisedSum(cols[..i + 1], sums, maxNv)
         == Add(NormalisedSum(cols[..i], sums, maxNv), Div(sums[i], Of(Pow2(maxNv - cols[i].nv))))
  {
    assert cols[i] in cols;
    assert cols[..i + 1][..i] == cols[..i];
  }

  function ShapeError(input: Input): Option<Error> {
    if input.fxs == [] then Some(EmptyInput)
    else if |input.fxs| != |input.mfxs| then Some(InputLengthMismatch(|input.fxs|, |input.mfxs|))
    else if input.gxs == [] then Some(EmptyInput)
    else if |input.gxs| != |input.mgxs| then Some(InputLengthMismatch(|input.gxs|, |input.mgxs|))
    else None
  }

  function CommonNv(input: Input): nat {
    if MaxNv(input.fxs) < MaxNv(input.gxs) then MaxNv(input.gxs) else MaxNv(input.fxs)
  }

  /** What runs out first: every column reads its commitment before its claimed sum. */
  function Shortage(phats: seq<Evals>, sums: seq<F>): Error {
    if |phats| <= |sums| then MissingCommitment else MissingClaimedSum
  }

  /** The verifier's answer, given the commitments and claimed sums it has left to read. */
  function Verdict(input: Input, phats: seq<Evals>, sums: seq<F>): Result<()> {
    var k := |input.fxs| + |input.gxs|;
    if ShapeError(input).Some? then Err(ShapeError(input).value)
    else if |phats| < k || |sums| < k then Err(Shortage(phats, sums))
    else
      var lhs := NormalisedSum(input.fxs, sums, CommonNv(input));
      var rhs := NormalisedSum(input.gxs, sums[|input.fxs|..], CommonNv(input));
      if lhs != rhs then Err(SumsDiffer(lhs, rhs)) else Ok(())
  }

  /** Which inputs are refused for their shape, and with what. */
  lemma RefusedShapes(input: Input, phats: seq<Evals>, sums: seq<F>)
    ensures ShapeError(input).None? <==>
              input.fxs != [] && input.gxs != [] && |input.fxs| == |input.mfxs| && |input.gxs| == |input.mgxs|
    ensures input.fxs == [] ==> Verdict(input, phats, sums) == Err(EmptyInput)
    ensures input.fxs != [] && |input.fxs| != |input.mfxs| ==>
              Verdict(input, phats, sums) == Err(InputLengthMismatch(|input.fxs|, |input.mfxs|))
    ensures input.fxs != [] && |input.fxs| == |input.mfxs| && input.gxs == [] ==>
              Verdict(input, phats, sums) == Err(EmptyInput)
    ensures input.fxs != [] && |input.fxs| == |input.mfxs| && input.gxs != [] && |input.gxs| != |input.mgxs| ==>
              Verdict(input, phats, sums) == Err(InputLengthMismatch(|input.gxs|, |input.mgxs|))
    ensures Verdict(input, phats, sums) == Ok(()) ==>
              |phats| >= |input.fxs| + |input.gxs| && |sums| >= |input.fxs| + |input.gxs|
  {
  }

  // ---- prover ----

  /** The loop that computes the claimed sum, with its four arms. */
  method ClaimedSum(col: Column, m: Multiplicity, phat: Evals) returns (v: F)
    requires col.Valid() && Fits(m, col) && |phat| == Pow2(col.nv)
    ensures SumsTo(Summand(col, m, Base(phat)), col.nv, v)
  {
    hide Add, Mul, Sub, Inv, Sum, At;
    var size := Pow2(col.nv);
    ghost var evals := CubeEvals(Summand(col, m, Base(phat)), col.nv);
    v := ZERO;
    EmptySum(evals);
    if col.activator.Some? && m.Some? {
      for i := 0 to size
        invariant v == Sum(evals[..i])
      {
        v := Add(v, Mul(Mul(phat[i], m.value[i]), col.activator.value[i]));
        SummandRow(col, m, phat, i);
        PrefixSum(evals, i);
      }
    } else if m.Some? {
      for i := 0 to size
        invariant v == Sum(evals[..i])
      {
        v := Add(v, Mul(phat[i], m.value[i]));
        SummandRow(col, m, phat, i);
        PrefixSum(evals, i);
      }
    } else if col.activator.Some? {
      for i := 0 to size
        invariant v == Sum(evals[..i])
      {
        v := Add(v, Mul(phat[i], col.activator.value[i]));
        SummandRow(col, m, phat, i);
        PrefixSum(evals, i);
      }
    } else {
      for i := 0 to size
        invariant v == Sum(evals[..i])
      {
        v := Add(v, phat[i]);
        SummandRow(col, m, phat, i);
        PrefixSum(evals, i);
      }
    }
    assert evals[..size] == evals;
  }

  lemma EmptySum(xs: seq<F>)
    ensures Sum(xs[..0]) == ZERO
  {
  }

  /** The prover's tracker: what it has committed to and the claims it has added. */
  class ArgProver {
    var commitments: seq<Evals>
    var sumClaims: seq<SumClaim>
    var zeroClaims: seq<VPoly>

    constructor ()
      ensures commitments == [] && sumClaims == [] && zeroClaims == []
    {
      commitments, sumClaims, zeroClaims := [], [], [];
    }

    method TrackAndCommit(mle: Evals) returns (poly: VPoly)
      modifies this`commitments
      ensures commitments == old(commitments) + [mle] && poly == Base(mle)
    {
      commitments := commitments + [mle];
      poly := Base(mle);
    }

    method ProveGenerateSubclaims(col: Column, m: Multiplicity, gamma: F)
      requires col.Valid() && Fits(m, col)
      modifies this
      ensures commitments == old(commitments) + [PhatEvals(col, gamma)]
      ensures sumClaims == old(sumClaims) + [HonestClaim(col, m, gamma)]
      ensures TrueClaim(sumClaims[|old(sumClaims)|], col, m, gamma)
      ensures zeroClaims == old(zeroClaims) + [PhatCheck(Base(col.data), Base(PhatEvals(col, gamma)), gamma)]
    {
      var phatMle := PhatEvals(col, gamma);
      var phat := TrackAndCommit(phatMle);
      var v := ClaimedSum(col, m, phatMle);
      var challenge := Summand(col, m, phat);
      var p := Base(col.data);
      var phatGamma := Scaled(phat, gamma);
      var check := Shifted(Minus(Times(p, phat), phatGamma), Neg(ONE));
      sumClaims := sumClaims + [SumClaim(challenge, v)];
      zeroClaims := zeroClaims + [check];
      HonestClaimIsTrue(col, m, gamma);
    }

    method ProveSide(cols: seq<Column>, ms: seq<Multiplicity>, gamma: F)
      requires Paired(cols, ms)
      modifies this
      ensures commitments == old(commitments) + PhatsOf(cols, gamma)
      ensures sumClaims == old(sumClaims) + HonestClaims(cols, ms, gamma)
      ensures TrueClaims(sumClaims[|old(sumClaims)|..], cols, ms, gamma)
      ensures zeroClaims == old(zeroClaims) + SideChecks(cols, PhatsOf(cols, gamma), gamma)
    {
      hide HonestClaim, PhatCheck, PhatEvals, TrueClaims, TrueClaim;
      for i := 0 to |cols|
        invariant commitments == old(commitments) + PhatsOf(cols, gamma)[..i]
        invariant sumClaims == old(sumClaims) + HonestClaims(cols, ms, gamma)[..i]
        invariant zeroClaims == old(zeroClaims) + SideChecks(cols, PhatsOf(cols, gamma), gamma)[..i]
      {
        ProveGenerateSubclaims(cols[i], ms[i], gamma);
      }
      HonestClaimsAreTrue(cols, ms, gamma);
    }

    /** Both sides, with gamma the challenge the transcript produced. */
    method Prove(input: Input, gamma: F)
      requires Paired(input.fxs, input.mfxs) && Paired(input.gxs, input.mgxs)
      modifies this
      ensures commitments == old(commitments) + PhatsOf(input.fxs, gamma) + PhatsOf(input.gxs, gamma)
      ensures sumClaims
           == old(sumClaims) + HonestClaims(input.fxs, input.mfxs, gamma) + HonestClaims(input.gxs, input.mgxs, gamma)
      ensures TrueSides(sumClaims, |old(sumClaims)|, input, gamma)
      ensures zeroClaims == old(zeroClaims)
                          + SideChecks(input.fxs, PhatsOf(input.fxs, gamma), gamma)
                          + SideChecks(input.gxs, PhatsOf(input.gxs, gamma), gamma)
    {
      hide HonestClaims, SideChecks, PhatsOf, TrueClaims;
      ProveSide(input.fxs, input.mfxs, gamma);
      ghost var left := sumClaims;
      ProveSide(input.gxs, input.mgxs, gamma);
      assert sumClaims[..|left|] == left;
    }
  }

  lemma SummandRow(col: Column, m: Multiplicity, phat: Evals, i: nat)
    requires col.Valid() && Fits(m, col) && |phat| == Pow2(col.nv) && i < Pow2(col.nv)
    ensures At(Summand(col, m, Base(phat)), i) ==
            if col.activator.Some? && m.Some? then Mul(Mul(phat[i], m.value[i]), col.activator.value[i])
            else if m.Some? then Mul(phat[i], m.value[i])
            else if col.activator.Some? then Mul(phat[i], col.activator.value[i])
            else phat[i]
  {
    hide Mul, Wrap;
    WrapSmall(phat);
    if col.activator.Some? { WrapSmall(col.activator.value); }
    if m.Some? {
      WrapSmall(m.value);
      assert At(Times(Base(phat), Base(m.value)), i) == Mul(phat[i], m.value[i]);
    }
  }

  lemma PrefixSum(xs: seq<F>, i: nat)
    requires i < |xs|
    ensures Sum(xs[..i + 1]) == Add(Sum(xs[..i]), xs[i])
  {
    assert xs[..i + 1][..i] == xs[..i];
  }

  // ---- verifier ----

  /** The verifier's tracker: what it has still to read from the proof, and the claims it has registered. */
  class ArgVerifier {
    var phats: seq<Evals>
    var sums: seq<F>
    var sumClaims: seq<SumClaim>
    var zeroClaims: seq<VPoly>

    constructor (proof: Proof)
      ensures phats == proof.commitments && sums == proof.claimedSums
      ensures sumClaims == [] && zeroClaims == []
    {
      phats, sums := proof.commitments, proof.claimedSums;
      sumClaims, zeroClaims := [], [];
    }

    method TrackNextMvCom() returns (r: Result<VPoly>)
      modifies this`phats
      ensures r == if old(phats) == [] then Err(MissingCommitment) else Ok(Base(old(phats)[0]))
      ensures phats == if r.Ok? then old(phats)[1..] else old(phats)
    {
      if |phats| == 0 {
        return Err(MissingCommitment);
      }
      r := Ok(Base(phats[0]));
      phats := phats[1..];
    }

    method VerifyGenerateSubclaims(col: Column, m: Multiplicity, gamma: F) returns (r: Result<F>)
      modifies this
      ensures r == if old(phats) == [] then Err(MissingCommitment)
                   else if old(sums) == [] then Err(MissingClaimedSum) else Ok(old(sums)[0])
      ensures r.Ok? ==>
                && phats == old(phats)[1..] && sums == old(sums)[1..]
                && sumClaims == old(sumClaims) + [SumClaim(Summand(col, m, Base(old(phats)[0])), r.value)]
                && zeroClaims == old(zeroClaims) + [PhatCheck(Base(col.data), Base(old(phats)[0]), gamma)]
    {
      var p := Base(col.data);
      var com := TrackNextMvCom();
      if com.Err? {
        return Err(com.error);
      }
      var phat := com.value;
      var challenge := match (col.activator, m)
        case (Some(a), Some(w)) => Times(Times(phat, Base(w)), Base(a))
        case (None, Some(w)) => Times(phat, Base(w))
        case (Some(a), None) => Times(phat, Base(a))
        case (None, None) => phat;
      var phatGamma := Scaled(phat, gamma);
      var check := Shifted(Minus(Times(p, phat), phatGamma), Neg(ONE));
      if |sums| == 0 {
        return Err(MissingClaimedSum);
      }
      var claimed := sums[0];
      sums := sums[1..];
      sumClaims := sumClaims + [SumClaim(challenge, claimed)];
      zeroClaims := zeroClaims + [check];
      r := Ok(claimed);
    }

    /** One of the two accumulation loops. */
    method VerifySide(cols: seq<Column>, ms: seq<Multiplicity>, maxNv: nat, gamma: F) returns (r: Result<F>)
      requires |cols| == |ms| && forall c | c in cols :: c.nv <= maxNv
      modifies this
      ensures r == if |old(phats)| < |cols| || |old(sums)| < |cols| then Err(Shortage(old(phats), old(sums)))
                   else Ok(NormalisedSum(cols, old(sums), maxNv))
      ensures r.Ok? ==>
                && phats == old(phats)[|cols|..] && sums == old(sums)[|cols|..]
                && sumClaims == old(sumClaims) + SideClaims(cols, ms, old(phats), old(sums))
                && zeroClaims == old(zeroClaims) + SideChecks(cols, old(phats), gamma)
    {
      hide Add, Div, Of, Summand, PhatCheck, NormalisedSum, MaxNv;
      NormalisedNone(old(sums), maxNv);
      var v: F := ZERO;
      for i := 0 to |cols|
        invariant i <= |old(phats)| && i <= |old(sums)|
        invariant phats == old(phats)[i..] && sums == old(sums)[i..]
        invariant v == NormalisedSum(cols[..i], old(sums), maxNv)
        invariant sumClaims == old(sumClaims) + SideClaims(cols[..i], ms, old(phats), old(sums))
        invariant zeroClaims == old(zeroClaims) + SideChecks(cols[..i], old(phats), gamma)
      {
        var claim := VerifyGenerateSubclaims(cols[i], ms[i], gamma);
        if claim.Err? {
          return claim;
        }
        assert cols[i] in cols;
        var ratio := Pow2(maxNv - cols[i].nv);
        PowerOfTwoNonzero(maxNv - cols[i].nv);
        v := Add(v, Div(claim.value, Of(ratio)));
        NormalisedStep(cols, old(sums), maxNv, i);
      }
      assert cols[..|cols|] == cols;
      r := Ok(v);
    }

    /** Both accumulation loops and the comparison. */
    method CompareSides(input: Input, gamma: F) returns (r: Result<()>)
      requires ShapeError(input).None?
      modifies this
      ensures r == Verdict(input, old(phats), old(sums))
      ensures r.Ok? ==> Registered(input, gamma, old(phats), old(sums), old(sumClaims), old(zeroClaims))
    {
      hide NormalisedSum, SideClaims, SideChecks, MaxNv;
      var maxNvF := MaxNv(input.fxs);
      var maxNvG := MaxNv(input.gxs);
      var maxNv := if maxNvF < maxNvG then maxNvG else maxNvF;
      var lhs := VerifySide(input.fxs, input.mfxs, maxNv, gamma);
      if lhs.Err? {
        return Err(lhs.error);
      }
      var rhs := VerifySide(input.gxs, input.mgxs, maxNv, gamma);
      if rhs.Err? {
        return Err(rhs.error);
      }
      if lhs.value != rhs.value {
        return Err(SumsDiffer(lhs.value, rhs.value));
      }
      r := Ok(());
    }

    /** What acceptance leaves with the tracker: one sum claim and one zero claim per column. */
    ghost predicate Registered(input: Input, gamma: F, phats: seq<Evals>, sums: seq<F>,
                               sumsBefore: seq<SumClaim>, zerosBefore: seq<VPoly>)
      reads this
      requires Verdict(input, phats, sums).Ok?
    {
      var k := |input.fxs|;
      && sumClaims == sumsBefore + SideClaims(input.fxs, input.mfxs, phats, sums)
                    + SideClaims(input.gxs, input.mgxs, phats[k..], sums[k..])
      && zeroClaims == zerosBefore + SideChecks(input.fxs, phats, gamma) + SideChecks(input.gxs, phats[k..], gamma)
    }

    method Verify(input: Input, gamma: F) returns (r: Result<()>)
      modifies this
      ensures r == Verdict(input, old(phats), old(sums))
      ensures r.Ok? ==> Registered(input, gamma, old(phats), old(sums), old(sumClaims), old(zeroClaims))
    {
      if |input.fxs| == 0 {
        return Err(EmptyInput);
      }
      if |input.fxs| != |input.mfxs| {
        return Err(InputLengthMismatch(|input.fxs|, |input.mfxs|));
      }
      if |input.gxs| == 0 {
        return Err(EmptyInput);
      }
      if |input.gxs| != |input.mgxs| {
        return Err(InputLengthMismatch(|input.gxs|, |input.mgxs|));
      }
      r := CompareSides(input, gamma);
    }
  }
}
