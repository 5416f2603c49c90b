/** Columns with an optional activator, and the weighted values their rows stand for. */
module Columns {
  import opened Options
  import opened Powers
  import opened PrimeField
  import opened FieldSums
  import opened Bookkeeping
  import opened Polynomials

  /** `2^nv` rows; without an activator every row is active. */
  datatype Column = Column(nv: nat, data: Evals, activator: Option<Evals>) {
    ghost predicate Valid() {
      |data| == Pow2(nv) && (activator.Some? ==> |activator.value| == Pow2(nv))
    }

    ghost predicate BooleanActivator() {
      activator.Some? ==> forall a | a in activator.value :: a == ZERO || a == ONE
    }
  }

  type Multiplicity = Option<Evals>

  ghost predicate Fits(m: Multiplicity, col: Column) {
    m.Some? ==> |m.value| == Pow2(col.nv)
  }

  /** Every column has a multiplicity of its own size; the prover reads no further than the columns. */
  ghost predicate Paired(cols: seq<Column>, ms: seq<Multiplicity>) {
    |cols| <= |ms| && forall i | 0 <= i < |cols| :: cols[i].Valid() && Fits(ms[i], cols[i])
  }

  ghost predicate ValidSide(cols: seq<Column>, ms: seq<Multiplicity>) {
    |cols| == |ms| && Paired(cols, ms)
  }

  ghost predicate BooleanSide(cols: seq<Column>) {
    forall c | c in cols :: c.BooleanActivator()
  }

  function RowMultiplicity(m: Multiplicity, i: nat): F
    requires m.Some? ==> i < |m.value|
  {
    match m case None => ONE case Some(evals) => evals[i]
  }

  function RowActivator(col: Column, i: nat): F
    requires col.Valid() && i < |col.data|
  {
    match col.activator case None => ONE case Some(evals) => evals[i]
  }

  /** What the sums range over: every row, weighted by multiplicity times activator. */
  function RowTerms(col: Column, m: Multiplicity): (r: seq<Term>)
    requires col.Valid() && Fits(m, col)
    ensures |r| == |col.data|
    ensures forall i | 0 <= i < |r| :: r[i] == Term(col.data[i], Mul(RowMultiplicity(m, i), RowActivator(col, i)))
  {
    seq(|col.data|, i requires 0 <= i < |col.data| =>
      Term(col.data[i], Mul(RowMultiplicity(m, i), RowActivator(col, i))))
  }

  /** What the honest prover's map ranges over: the rows whose activator is one. */
  function ActiveTerms(col: Column, m: Multiplicity, n: nat): seq<Term>
    requires col.Valid() && Fits(m, col) && n <= |col.data|
  {
    if n == 0 then []
    else
      var last := if RowActivator(col, n - 1) == ONE then [Term(col.data[n - 1], RowMultiplicity(m, n - 1))] else [];
      ActiveTerms(col, m, n - 1) + last
  }

  function SideTerms(cols: seq<Column>, ms: seq<Multiplicity>): seq<Term>
    requires ValidSide(cols, ms)
  {
    if cols == [] then []
    else
      var n := |cols| - 1;
      SideTerms(cols[..n], ms[..n]) + ActiveTerms(cols[n], ms[n], |cols[n].data|)
  }

  /** For Boolean activators, filtering by one and multiplying by the activator give the same sums. */
  lemma {:induction false} ActiveSum(col: Column, m: Multiplicity, n: nat, gamma: F)
    requires col.Valid() && Fits(m, col) && col.BooleanActivator() && n <= |col.data|
    ensures FractionSum(RowTerms(col, m)[..n], gamma) == FractionSum(ActiveTerms(col, m, n), gamma)
  {
    hide Add, Mul, Sub, Inv;
    if n > 0 {
      var rows := RowTerms(col, m);
      var v, w := col.data[n - 1], RowMultiplicity(m, n - 1);
      assert rows[..n][..n - 1] == rows[..n - 1];
      ActiveSum(col, m, n - 1, gamma);
      var before := ActiveTerms(col, m, n - 1);
      if RowActivator(col, n - 1) == ONE {
        MulOne(w);
        assert (before + [Term(v, w)])[..|before|] == before;
      } else {
        assert RowActivator(col, n - 1) in col.activator.value;
        MulZero(w);
        MulZero(Inv(Sub(v, gamma)));
        AddZero(FractionSum(before, gamma));
        assert before + [] == before;
      }
    }
  }

  lemma {:induction false} ActiveValues(col: Column, m: Multiplicity, n: nat, t: Term)
    requires col.Valid() && Fits(m, col) && n <= |col.data| && t in ActiveTerms(col, m, n)
    ensures t.value in col.data
  {
    if t in ActiveTerms(col, m, n - 1) {
      ActiveValues(col, m, n - 1, t);
    }
  }

  /** Gamma differs from every evaluation of every column, active or not. */
  ghost predicate AvoidsColumns(cols: seq<Column>, gamma: F) {
    forall c | c in cols :: gamma !in c.data
  }

  lemma {:induction false} SideAvoids(cols: seq<Column>, ms: seq<Multiplicity>, gamma: F)
    requires ValidSide(cols, ms) && AvoidsColumns(cols, gamma)
    ensures Avoids(SideTerms(cols, ms), gamma)
  {
    if cols != [] {
      var n := |cols| - 1;
      SideAvoids(cols[..n], ms[..n], gamma);
      forall t | t in ActiveTerms(cols[n], ms[n], |cols[n].data|) ensures t.value != gamma {
        ActiveValues(cols[n], ms[n], |cols[n].data|, t);
        assert cols[n] in cols;
      }
    }
  }

  /** The sum a side claims at gamma, column by column. */
  function SideSum(cols: seq<Column>, ms: seq<Multiplicity>, gamma: F): F
    requires ValidSide(cols, ms)
  {
    if cols == [] then ZERO
    else
      var n := |cols| - 1;
      Add(SideSum(cols[..n], ms[..n], gamma), FractionSum(RowTerms(cols[n], ms[n]), gamma))
  }

  /** Every row of every column, weighted by multiplicity times activator. */
  function AllRows(cols: seq<Column>, ms: seq<Multiplicity>): seq<Term>
    requires ValidSide(cols, ms)
  {
    if cols == [] then []
    else
      var n := |cols| - 1;
      AllRows(cols[..n], ms[..n]) + RowTerms(cols[n], ms[n])
  }

  lemma {:induction false} SideSumIsRows(cols: seq<Column>, ms: seq<Multiplicity>, gamma: F)
    requires ValidSide(cols, ms)
    ensures SideSum(cols, ms, gamma) == FractionSum(AllRows(cols, ms), gamma)
  {
    if cols != [] {
      hide Add;
      var n := |cols| - 1;
      SideSumIsRows(cols[..n], ms[..n], gamma);
      FractionSumAppend(AllRows(cols[..n], ms[..n]), RowTerms(cols[n], ms[n]), gamma);
    }
  }

  lemma {:induction false} RowsAvoid(cols: seq<Column>, ms: seq<Multiplicity>, gamma: F)
    requires ValidSide(cols, ms) && AvoidsColumns(cols, gamma)
    ensures Avoids(AllRows(cols, ms), gamma)
  {
    if cols != [] {
      var n := |cols| - 1;
      RowsAvoid(cols[..n], ms[..n], gamma);
      forall t | t in RowTerms(cols[n], ms[n]) ensures t.value != gamma {
        assert cols[n] in cols && t.value in cols[n].data;
      }
    }
  }

  /** For Boolean activators, filtering by one and multiplying by the activator weigh every value the same. */
  lemma {:induction false} ActiveWeight(col: Column, m: Multiplicity, n: nat, v: F)
    requires col.Valid() && Fits(m, col) && col.BooleanActivator() && n <= |col.data|
    ensures WeightOf(RowTerms(col, m)[..n], v) == WeightOf(ActiveTerms(col, m, n), v)
  {
    hide Add, Mul;
    if n > 0 {
      var rows := RowTerms(col, m);
      var w := RowMultiplicity(m, n - 1);
      assert rows[..n][..n - 1] == rows[..n - 1];
      ActiveWeight(col, m, n - 1, v);
      var before := ActiveTerms(col, m, n - 1);
      if RowActivator(col, n - 1) == ONE {
        MulOne(w);
        assert (before + [Term(col.data[n - 1], w)])[..|before|] == before;
      } else {
        assert RowActivator(col, n - 1) in col.activator.value;
        MulZero(w);
        AddZero(WeightOf(before, v));
        assert before + [] == before;
      }
    }
  }

  lemma {:induction false} SideWeight(cols: seq<Column>, ms: seq<Multiplicity>, v: F)
    requires ValidSide(cols, ms) && BooleanSide(cols)
    ensures WeightOf(AllRows(cols, ms), v) == WeightOf(SideTerms(cols, ms), v)
  {
    if cols != [] {
      hide Add;
      var n := |cols| - 1;
      var rows := RowTerms(cols[n], ms[n]);
      SideWeight(cols[..n], ms[..n], v);
      assert cols[n] in cols;
      ActiveWeight(cols[n], ms[n], |rows|, v);
      assert rows[..|rows|] == rows;
      WeightAppend(AllRows(cols[..n], ms[..n]), rows, v);
      WeightAppend(SideTerms(cols[..n], ms[..n]), ActiveTerms(cols[n], ms[n], |rows|), v);
    }
  }

  lemma {:induction false} SideSumIsActive(cols: seq<Column>, ms: seq<Multiplicity>, gamma: F)
    requires ValidSide(cols, ms) && BooleanSide(cols)
    ensures SideSum(cols, ms, gamma) == FractionSum(SideTerms(cols, ms), gamma)
  {
    if cols != [] {
      hide Add;
      var n := |cols| - 1;
      var rows := RowTerms(cols[n], ms[n]);
      SideSumIsActive(cols[..n], ms[..n], gamma);
      assert cols[n] in cols;
      ActiveSum(cols[n], ms[n], |rows|, gamma);
      assert rows[..|rows|] == rows;
      FractionSumAppend(SideTerms(cols[..n], ms[..n]), ActiveTerms(cols[n], ms[n], |rows|), gamma);
    }
  }
}
