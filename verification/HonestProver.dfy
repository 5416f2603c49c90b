/** The honest prover's own check: one map from value to net weight over all activated rows. */
module HonestProver {
  import opened PrimeField
  import opened FieldSums
  import opened Bookkeeping
  import opened Columns
  import opened KeyedSumcheck

  datatype HonestError = WrongInputShape(shape: Error) | FalseClaim

  datatype HonestResult = Passed | Failed(error: HonestError)

  /** Every activated row of both sides, the right side with opposite weights. */
  function NetTerms(input: Input): seq<Term>
    requires ValidSide(input.fxs, input.mfxs) && ValidSide(input.gxs, input.mgxs)
  {
    SideTerms(input.fxs, input.mfxs) + Negated(SideTerms(input.gxs, input.mgxs))
  }

  /** The statement the whole protocol is about: each value has one total weight. */
  ghost predicate EqualSides(input: Input)
    requires ValidSide(input.fxs, input.mfxs) && ValidSide(input.gxs, input.mgxs)
  {
    SameWeights(SideTerms(input.fxs, input.mfxs), SideTerms(input.gxs, input.mgxs))
  }

  lemma BookAppend(ts: seq<Term>, t: Term)
    ensures BookOf(ts + [t]) == AddEntry(BookOf(ts), t)
  {
    assert (ts + [t])[..|ts|] == ts;
  }

  /** `-=` on an entry is adding the opposite weight. */
  lemma SubtractEntry(book: Book, v: F, w: F)
    ensures AddEntry(book, Term(v, Neg(w))) == book[v := Sub(if v in book then book[v] else ZERO, w)]
  {
    SubIsAddNeg(if v in book then book[v] else ZERO, w);
  }

  /** The loop over one column of the left side; `ts` are the rows seen before. */
  method AddColumn(book: Book, col: Column, m: Multiplicity, ghost ts: seq<Term>) returns (r: Book)
    requires col.Valid() && Fits(m, col) && book == BookOf(ts)
    ensures r == BookOf(ts + ActiveTerms(col, m, |col.data|))
  {
    hide Add, BookOf;
    r := book;
    assert ts + [] == ts;
    for i := 0 to |col.data|
      invariant r == BookOf(ts + ActiveTerms(col, m, i))
    {
      ghost var seen := ActiveTerms(col, m, i);
      if col.activator.None? || col.activator.value[i] == ONE {
        var v, w: F := col.data[i], if m.Some? then m.value[i] else ONE;
        r := r[v := Add(if v in r then r[v] else ZERO, w)];
        BookAppend(ts + seen, Term(v, w));
        assert ts + seen + [Term(v, w)] == ts + (seen + [Term(v, w)]);
      } else {
        assert seen + [] == seen;
      }
    }
  }

  /** The loop over one column of the right side. */
  method SubtractColumn(book: Book, col: Column, m: Multiplicity, ghost ts: seq<Term>) returns (r: Book)
    requires col.Valid() && Fits(m, col) && book == BookOf(ts)
    ensures r == BookOf(ts + Negated(ActiveTerms(col, m, |col.data|)))
  {
    hide Add, Sub, Neg, BookOf;
    r := book;
    assert ts + Negated([]) == ts;
    for i := 0 to |col.data|
      invariant r == BookOf(ts + Negated(ActiveTerms(col, m, i)))
    {
      ghost var seen := ActiveTerms(col, m, i);
      if col.activator.None? || col.activator.value[i] == ONE {
        var v, w: F := col.data[i], if m.Some? then m.value[i] else ONE;
        SubtractEntry(r, v, w);
        r := r[v := Sub(if v in r then r[v] else ZERO, w)];
        BookAppend(ts + Negated(seen), Term(v, Neg(w)));
        assert ts + Negated(seen) + [Term(v, Neg(w))] == ts + Negated(seen + [Term(v, w)]);
      } else {
        assert seen + [] == seen;
      }
    }
  }

  method HonestProverCheck(input: Input) returns (r: HonestResult)
    requires ShapeError(input).None? ==> ValidSide(input.fxs, input.mfxs) && ValidSide(input.gxs, input.mgxs)
    ensures ShapeError(input).Some? ==> r == Failed(WrongInputShape(ShapeError(input).value))
    ensures ShapeError(input).None? ==>
              r == if EqualSides(input) then Passed else Failed(FalseClaim)
  {
    hide SameWeights, BookOf, SideTerms;
    if |input.fxs| == 0 {
      return Failed(WrongInputShape(EmptyInput));
    }
    if |input.fxs| != |input.mfxs| {
      return Failed(WrongInputShape(InputLengthMismatch(|input.fxs|, |input.mfxs|)));
    }
    if |input.gxs| == 0 {
      return Failed(WrongInputShape(EmptyInput));
    }
    if |input.gxs| != |input.mgxs| {
      return Failed(WrongInputShape(InputLengthMismatch(|input.gxs|, |input.mgxs|)));
    }
    var book := NetBook(input);
    BalancedSides(SideTerms(input.fxs, input.mfxs), SideTerms(input.gxs, input.mgxs));
    var unchecked := book.Keys;
    while unchecked != {}
      invariant unchecked <= book.Keys
      invariant forall v | v in book && v !in unchecked :: book[v] == ZERO
      decreases unchecked
    {
      var v :| v in unchecked;
      if book[v] != ZERO {
        return Failed(FalseClaim);
      }
      unchecked := unchecked - {v};
    }
    r := Passed;
  }

  /** The two passes that fill the map. */
  method NetBook(input: Input) returns (book: Book)
    requires ValidSide(input.fxs, input.mfxs) && ValidSide(input.gxs, input.mgxs)
    ensures book == BookOf(NetTerms(input))
  {
    hide BookOf, ActiveTerms, Negated;
    ghost var fs := SideTerms(input.fxs, input.mfxs);
    book := EmptyBook();
    for i := 0 to |input.fxs|
      invariant book == BookOf(SideTerms(input.fxs[..i], input.mfxs[..i]))
    {
      ghost var before := SideTerms(input.fxs[..i], input.mfxs[..i]);
      book := AddColumn(book, input.fxs[i], input.mfxs[i], before);
      SideStep(input.fxs, input.mfxs, i);
    }
    assert input.fxs[..|input.fxs|] == input.fxs && input.mfxs[..|input.fxs|] == input.mfxs;
    NegatedAppend(fs, [], []);
    for i := 0 to |input.gxs|
      invariant book == BookOf(fs + Negated(SideTerms(input.gxs[..i], input.mgxs[..i])))
    {
      ghost var before := SideTerms(input.gxs[..i], input.mgxs[..i]);
      book := SubtractColumn(book, input.gxs[i], input.mgxs[i], fs + Negated(before));
      SideStep(input.gxs, input.mgxs, i);
      NegatedAppend(fs, before, ActiveTerms(input.gxs[i], input.mgxs[i], |input.gxs[i].data|));
    }
    assert input.gxs[..|input.gxs|] == input.gxs && input.mgxs[..|input.gxs|] == input.mgxs;
  }

  lemma NegatedAppend(ts: seq<Term>, before: seq<Term>, more: seq<Term>)
    ensures ts + Negated([]) == ts
    ensures ts + Negated(before) + Negated(more) == ts + Negated(before + more)
  {
  }

  method EmptyBook() returns (book: Book)
    ensures book == BookOf([])
  {
    book := map[];
  }

  lemma SideStep(cols: seq<Column>, ms: seq<Multiplicity>, i: nat)
    requires ValidSide(cols, ms) && i < |cols|
    ensures SideTerms(cols[..i + 1], ms[..i + 1])
         == SideTerms(cols[..i], ms[..i]) + ActiveTerms(cols[i], ms[i], |cols[i].data|)
  {
    assert cols[..i + 1][..i] == cols[..i] && ms[..i + 1][..i] == ms[..i];
  }
}
