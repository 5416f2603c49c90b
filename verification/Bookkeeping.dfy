/** Net weight per value: the map the honest prover keeps, and what it says about sums of fractions. */
module Bookkeeping {
  import opened PrimeField
  import opened FieldSums

  type Book = map<F, F>

  /** `*map.entry(value).or_insert(0) += weight`. */
  function AddEntry(book: Book, t: Term): Book {
    book[t.value := Add(if t.value in book then book[t.value] else ZERO, t.weight)]
  }

  function BookOf(ts: seq<Term>): Book {
    if ts == [] then map[] else AddEntry(BookOf(ts[..|ts| - 1]), ts[|ts| - 1])
  }

  ghost predicate Balanced(book: Book) {
    forall v | v in book :: book[v] == ZERO
  }

  /** What the map stands for: the sum of the weights recorded for `v`. */
  function WeightOf(ts: seq<Term>, v: F): F {
    if ts == [] then ZERO
    else
      var last := ts[|ts| - 1];
      Add(WeightOf(ts[..|ts| - 1], v), if last.value == v then last.weight else ZERO)
  }

  lemma {:induction false} BookMeaning(ts: seq<Term>)
    ensures BookOf(ts).Keys == set t | t in ts :: t.value
    ensures forall v :: WeightOf(ts, v) == if v in BookOf(ts) then BookOf(ts)[v] else ZERO
  {
    if ts != [] {
      var init, last := ts[..|ts| - 1], ts[|ts| - 1];
      BookMeaning(init);
      assert ts == init + [last];
      forall v ensures WeightOf(ts, v) == if v in BookOf(ts) then BookOf(ts)[v] else ZERO {
        AddZero(WeightOf(init, v));
      }
    }
  }

  lemma {:induction false} WeightAppend(ts: seq<Term>, us: seq<Term>, v: F)
    ensures WeightOf(ts + us, v) == Add(WeightOf(ts, v), WeightOf(us, v))
  {
    hide Add;
    if us == [] {
      assert ts + us == ts;
      AddZero(WeightOf(ts, v));
    } else {
      var init, last := us[..|us| - 1], us[|us| - 1];
      WeightAppend(ts, init, v);
      assert (ts + us)[..|ts + us| - 1] == ts + init;
      AddAssoc(WeightOf(ts, v), WeightOf(init, v), if last.value == v then last.weight else ZERO);
    }
  }

  // ---- regrouping a sum of fractions by value ----

  function Entries(book: Book, vs: seq<F>): (r: seq<Term>)
    requires forall v | v in vs :: v in book
    ensures |r| == |vs| && forall i | 0 <= i < |vs| :: r[i] == Term(vs[i], book[vs[i]])
  {
    seq(|vs|, i requires 0 <= i < |vs| => Term(vs[i], book[vs[i]]))
  }

  ghost predicate Enumerates(vs: seq<F>, s: set<F>) {
    Distinct(vs) && forall v :: v in vs <==> v in s
  }

  lemma {:induction false} Enumeration(s: set<F>) returns (vs: seq<F>)
    ensures Enumerates(vs, s) && |vs| == |s|
  {
    if s == {} {
      vs := [];
    } else {
      var v :| v in s;
      var rest := Enumeration(s - {v});
      vs := rest + [v];
    }
  }

  lemma FirstListed(vs: seq<F>)
    requires vs != []
    ensures vs[0] in vs
  {
  }

  /** Pulling one term out of a sum. */
  lemma FractionSumRemove(ts: seq<Term>, i: nat, g: F)
    requires i < |ts|
    ensures FractionSum(ts, g) == Add(FractionSum(ts[..i] + ts[i + 1..], g), Fraction(ts[i], g))
  {
    hide Add, Fraction;
    var a, x, b := FractionSum(ts[..i], g), Fraction(ts[i], g), FractionSum(ts[i + 1..], g);
    assert ts == ts[..i] + ([ts[i]] + ts[i + 1..]);
    FractionSumAppend(ts[..i], [ts[i]] + ts[i + 1..], g);
    FractionSumAppend([ts[i]], ts[i + 1..], g);
    assert FractionSum([ts[i]], g) == x by {
      assert [ts[i]][..0] == [];
      AddZero(x);
    }
    FractionSumAppend(ts[..i], ts[i + 1..], g);
    AddComm(x, b);
    AddAssoc(a, b, x);
  }

  /** The sum over the rows is the sum over the map's entries, in whatever order they are listed. */
  lemma {:induction false} Regroup(ts: seq<Term>, vs: seq<F>, g: F)
    requires Enumerates(vs, BookOf(ts).Keys)
    ensures FractionSum(Entries(BookOf(ts), vs), g) == FractionSum(ts, g)
  {
    hide Add, Fraction;
    if ts == [] {
      if vs != [] {
        FirstListed(vs);
      }
    } else {
      var init, last := ts[..|ts| - 1], ts[|ts| - 1];
      var before := BookOf(init);
      assert last.value in vs;
      var i :| 0 <= i < |vs| && vs[i] == last.value;
      if last.value in before {
        assert BookOf(ts).Keys == before.Keys;
        Regroup(init, vs, g);
        ReplaceEntry(before, vs, i, last, g);
      } else {
        assert BookOf(ts).Keys == before.Keys + {last.value};
        OthersEnumerate(vs, i, before.Keys);
        Regroup(init, vs[..i] + vs[i + 1..], g);
        NewEntry(before, vs, i, last, g);
      }
    }
  }

  lemma ReplaceEntry(book: Book, vs: seq<F>, i: nat, t: Term, g: F)
    requires i < |vs| && vs[i] == t.value && t.value in book && Enumerates(vs, book.Keys)
    ensures FractionSum(Entries(AddEntry(book, t), vs), g) == Add(FractionSum(Entries(book, vs), g), Fraction(t, g))
  {
    hide Add, Fraction;
    var es, us := Entries(book, vs), Entries(AddEntry(book, t), vs);
    var others := es[..i] + es[i + 1..];
    assert us[..i] + us[i + 1..] == others;
    FractionSumRemove(es, i, g);
    FractionSumRemove(us, i, g);
    FractionLinear(t.value, book[t.value], t.weight, g);
    AddAssoc(FractionSum(others, g), Fraction(es[i], g), Fraction(t, g));
  }

  lemma NewEntry(book: Book, vs: seq<F>, i: nat, t: Term, g: F)
    requires i < |vs| && vs[i] == t.value && t.value !in book && Enumerates(vs, book.Keys + {t.value})
    requires Enumerates(vs[..i] + vs[i + 1..], book.Keys)
    ensures FractionSum(Entries(AddEntry(book, t), vs), g)
         == Add(FractionSum(Entries(book, vs[..i] + vs[i + 1..]), g), Fraction(t, g))
  {
    AddZero(t.weight);
    hide Add, Fraction;
    var us := Entries(AddEntry(book, t), vs);
    assert us[..i] + us[i + 1..] == Entries(book, vs[..i] + vs[i + 1..]);
    FractionSumRemove(us, i, g);
  }

  lemma OthersEnumerate(vs: seq<F>, i: nat, s: set<F>)
    requires i < |vs| && vs[i] !in s && Enumerates(vs, s + {vs[i]})
    ensures Enumerates(vs[..i] + vs[i + 1..], s)
  {
    var others := vs[..i] + vs[i + 1..];
    forall v ensures v in others <==> v in s {
      if v in s {
        var j :| 0 <= j < |vs| && vs[j] == v;
        assert others[if j < i then j else j - 1] == v;
      }
    }
  }

  lemma FractionLinear(v: F, w: F, w': F, g: F)
    ensures Fraction(Term(v, Add(w, w')), g) == Add(Fraction(Term(v, w), g), Fraction(Term(v, w'), g))
  {
    Distrib(Inv(Sub(v, g)), w, w');
  }

  // ---- the map is balanced exactly when the sums vanish ----

  /** Completeness: a balanced map makes the sum of fractions vanish everywhere. */
  lemma BalancedVanishes(ts: seq<Term>, g: F)
    requires Balanced(BookOf(ts))
    ensures FractionSum(ts, g) == ZERO
  {
    var vs := Enumeration(BookOf(ts).Keys);
    Regroup(ts, vs, g);
    FractionSumZero(Entries(BookOf(ts), vs), g);
  }

  /** The values whose net weight is not zero. */
  function Unbalanced(book: Book): set<F> {
    set v | v in book && book[v] != ZERO
  }

  lemma ListedTogether(us: seq<F>, s: set<F>, zs: seq<F>, t: set<F>)
    requires Enumerates(us, s) && Enumerates(zs, t) && s !! t
    ensures Enumerates(us + zs, s + t)
  {
    forall i, j | 0 <= i < |us| && 0 <= j < |zs| ensures us[i] != zs[j] {
      assert us[i] in us && zs[j] in zs;
    }
  }

  /** Listing the unbalanced values first, the sum is theirs alone. */
  lemma UnbalancedSum(ts: seq<Term>, us: seq<F>, zs: seq<F>, g: F)
    requires Enumerates(us, Unbalanced(BookOf(ts))) && Enumerates(zs, BookOf(ts).Keys - Unbalanced(BookOf(ts)))
    ensures FractionSum(Entries(BookOf(ts), us), g) == FractionSum(ts, g)
  {
    hide BookOf, FractionSum, Add;
    var book := BookOf(ts);
    var es := Entries(book, us + zs);
    ListedTogether(us, Unbalanced(book), zs, book.Keys - Unbalanced(book));
    assert Unbalanced(book) + (book.Keys - Unbalanced(book)) == book.Keys;
    Regroup(ts, us + zs, g);
    assert es == Entries(book, us) + Entries(book, zs);
    FractionSumAppend(Entries(book, us), Entries(book, zs), g);
    FractionSumZero(Entries(book, zs), g);
    AddZero(FractionSum(Entries(book, us), g));
  }

  lemma EntriesAvoid(ts: seq<Term>, us: seq<F>, g: F)
    requires Avoids(ts, g) && forall v | v in us :: v in BookOf(ts)
    ensures Avoids(Entries(BookOf(ts), us), g)
  {
    BookMeaning(ts);
    hide BookOf;
    forall e | e in Entries(BookOf(ts), us) ensures e.value != g {
      assert e.value in BookOf(ts).Keys;
    }
  }

  /** Soundness: vanishing at as many points as there are unbalanced values leaves no such value. */
  lemma VanishingBalances(ts: seq<Term>, gammas: set<F>)
    requires |gammas| >= |Unbalanced(BookOf(ts))|
    requires forall g | g in gammas :: Avoids(ts, g) && FractionSum(ts, g) == ZERO
    ensures Balanced(BookOf(ts))
  {
    hide BookOf, FractionSum;
    var book := BookOf(ts);
    var us := Enumeration(Unbalanced(book));
    var zs := Enumeration(book.Keys - Unbalanced(book));
    var all := Enumeration(gammas);
    var gs := all[..|us|];
    forall g | g in gs ensures Avoids(Entries(book, us), g) && FractionSum(Entries(book, us), g) == ZERO {
      assert g in all;
      UnbalancedSum(ts, us, zs, g);
      EntriesAvoid(ts, us, g);
    }
    if !Balanced(book) {
      UnbalancedEntry(book, us);
    }
    VanishingSum(Entries(book, us), gs);
  }

  lemma UnbalancedEntry(book: Book, us: seq<F>)
    requires Enumerates(us, Unbalanced(book)) && !Balanced(book)
    ensures exists e | e in Entries(book, us) :: e.weight != ZERO
  {
    var v :| v in book && book[v] != ZERO;
    assert v in us;
    var i :| 0 <= i < |us| && us[i] == v;
    assert Entries(book, us)[i] in Entries(book, us);
  }

  // ---- opposite sides ----

  /** Every value carries the same total weight on both sides. */
  ghost predicate SameWeights(fs: seq<Term>, gs: seq<Term>) {
    forall v :: WeightOf(fs, v) == WeightOf(gs, v)
  }

  function Negated(ts: seq<Term>): (r: seq<Term>)
    ensures |r| == |ts| && forall i | 0 <= i < |ts| :: r[i] == Term(ts[i].value, Neg(ts[i].weight))
  {
    seq(|ts|, i requires 0 <= i < |ts| => Term(ts[i].value, Neg(ts[i].weight)))
  }

  lemma {:induction false} NegatedSum(ts: seq<Term>, g: F)
    ensures FractionSum(Negated(ts), g) == Neg(FractionSum(ts, g))
  {
    if ts != [] {
      hide Add, Mul, Neg, Sub;
      var init, last := ts[..|ts| - 1], ts[|ts| - 1];
      NegatedSum(init, g);
      assert Negated(ts)[..|ts| - 1] == Negated(init);
      MulNeg(last.weight, Inv(Sub(last.value, g)));
      NegAdd(FractionSum(init, g), Fraction(last, g));
    }
  }

  lemma {:induction false} NegatedWeight(ts: seq<Term>, v: F)
    ensures WeightOf(Negated(ts), v) == Neg(WeightOf(ts, v))
  {
    if ts != [] {
      hide Add;
      var init, last := ts[..|ts| - 1], ts[|ts| - 1];
      NegatedWeight(init, v);
      assert Negated(ts)[..|ts| - 1] == Negated(init);
      NegAdd(WeightOf(init, v), if last.value == v then last.weight else ZERO);
    }
  }

  /** The difference of two sides vanishes exactly when the sides agree. */
  lemma SidesAgree(fs: seq<Term>, gs: seq<Term>, gamma: F)
    ensures FractionSum(fs + Negated(gs), gamma) == ZERO <==> FractionSum(fs, gamma) == FractionSum(gs, gamma)
  {
    var a, b := FractionSum(fs, gamma), FractionSum(gs, gamma);
    FractionSumAppend(fs, Negated(gs), gamma);
    NegatedSum(gs, gamma);
    SubIsAddNeg(a, b);
    SubZero(a, b);
  }

  lemma WeightDifference(fs: seq<Term>, gs: seq<Term>, v: F)
    ensures WeightOf(fs + Negated(gs), v) == ZERO <==> WeightOf(fs, v) == WeightOf(gs, v)
  {
    WeightAppend(fs, Negated(gs), v);
    NegatedWeight(gs, v);
    SubIsAddNeg(WeightOf(fs, v), WeightOf(gs, v));
    SubZero(WeightOf(fs, v), WeightOf(gs, v));
  }

  /** The map of the difference is balanced exactly when both sides give every value the same weight. */
  lemma BalancedSides(fs: seq<Term>, gs: seq<Term>)
    ensures Balanced(BookOf(fs + Negated(gs))) <==> SameWeights(fs, gs)
  {
    var ts := fs + Negated(gs);
    BookMeaning(ts);
    hide Add, Neg;
    forall v ensures WeightOf(ts, v) == ZERO <==> WeightOf(fs, v) == WeightOf(gs, v) {
      WeightDifference(fs, gs, v);
    }
    if Balanced(BookOf(ts)) {
      forall v ensures WeightOf(fs, v) == WeightOf(gs, v) {
        assert WeightOf(ts, v) == ZERO;
      }
    } else {
      var v :| v in BookOf(ts) && BookOf(ts)[v] != ZERO;
      assert WeightOf(ts, v) != ZERO;
      assert WeightOf(fs, v) != WeightOf(gs, v);
    }
  }
}
