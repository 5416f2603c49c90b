/** The rewrite that gives every average its sum and count. */
module AvgSupport {

  /** Arguments, distinct flag, filter, ordering and null treatment, which all aggregates built from it share. */
  type Params = seq<string>

  datatype Expr = AggregateFunction(func: string, params: Params) | OtherExpr(text: string)

  function AsciiLower(c: char): char {
    if 'A' <= c <= 'Z' then c - 'A' + 'a' else c
  }

  predicate EqIgnoreCase(s: string, t: string) {
    |s| == |t| && forall i | 0 <= i < |s| :: AsciiLower(s[i]) == AsciiLower(t[i])
  }

  predicate IsAvg(e: Expr) {
    e.AggregateFunction? && EqIgnoreCase(e.func, "avg")
  }

  function SumOf(e: Expr): Expr
    requires IsAvg(e)
  {
    AggregateFunction("sum", e.params)
  }

  function CountOf(e: Expr): Expr
    requires IsAvg(e)
  {
    AggregateFunction("count", e.params)
  }

  /** Every average has its sum and count in the list. */
  ghost predicate Closed(exprs: seq<Expr>) {
    forall e | e in exprs && IsAvg(e) ::
      AggregateFunction("sum", e.params) in exprs && AggregateFunction("count", e.params) in exprs
  }

  /** The spellings of the name that count as an average. */
  lemma AvgSpellings(func: string, params: Params)
    ensures IsAvg(AggregateFunction(func, params)) <==>
              && |func| == 3 && (func[0] == 'a' || func[0] == 'A') && (func[1] == 'v' || func[1] == 'V')
              && (func[2] == 'g' || func[2] == 'G')
  {
    assert "avg"[0] == 'a' && "avg"[1] == 'v' && "avg"[2] == 'g';
  }

  /** What one expression adds, given what is there already. */
  function Missing(existing: seq<Expr>, e: Expr): seq<Expr> {
    if !IsAvg(e) then []
    else
      var sum := if SumOf(e) in existing then [] else [SumOf(e)];
      sum + if CountOf(e) in existing + sum then [] else [CountOf(e)]
  }

  /** The rewritten list: each expression followed by what it adds. */
  function Expanded(exprs: seq<Expr>, existing: seq<Expr>): seq<Expr> {
    if exprs == [] then []
    else
      var more := Missing(existing, exprs[0]);
      [exprs[0]] + more + Expanded(exprs[1..], existing + more)
  }

  /** Everything the rewrite adds, in order. */
  function Additions(exprs: seq<Expr>, existing: seq<Expr>): seq<Expr> {
    if exprs == [] then []
    else
      var more := Missing(existing, exprs[0]);
      more + Additions(exprs[1..], existing + more)
  }

  method AddAvgSupport(exprs: seq<Expr>) returns (result: seq<Expr>, changed: bool)
    ensures result == Expanded(exprs, exprs)
    ensures changed <==> Additions(exprs, exprs) != []
  {
    hide IsAvg, Missing;
    var existing := exprs;
    result := [];
    changed := false;
    for i := 0 to |exprs|
      invariant result + Expanded(exprs[i..], existing) == Expanded(exprs, exprs)
      invariant changed || Additions(exprs[i..], existing) != [] <==> Additions(exprs, exprs) != []
    {
      ghost var before, was := result, existing;
      result := result + [exprs[i]];
      var more := AddFor(exprs[i], existing);
      existing := existing + more;
      result := result + more;
      changed := changed || |more| > 0;
      assert exprs[i..][1..] == exprs[i + 1..];
      assert before + ([exprs[i]] + more + Expanded(exprs[i + 1..], existing))
          == before + [exprs[i]] + more + Expanded(exprs[i + 1..], existing);
    }
  }

  /** The sum, then the count, each unless it is there already. */
  method AddFor(e: Expr, present: seq<Expr>) returns (more: seq<Expr>)
    ensures more == Missing(present, e)
  {
    hide EqIgnoreCase;
    more := [];
    if IsAvg(e) {
      var sum := SumOf(e);
      if sum !in present {
        more := more + [sum];
      }
      var count := CountOf(e);
      if count !in present + more {
        more := more + [count];
      }
    }
  }

  // ---- what the rewrite means ----

  /** `xs` is what is left of `ys` after dropping some elements. */
  ghost predicate Subsequence(xs: seq<Expr>, ys: seq<Expr>) {
    if xs == [] then true
    else ys != [] && (if xs[0] == ys[0] then Subsequence(xs[1..], ys[1..]) else Subsequence(xs, ys[1..]))
  }

  lemma {:induction false} SkipAhead(xs: seq<Expr>, more: seq<Expr>, ys: seq<Expr>)
    requires Subsequence(xs, ys) && forall m | m in more :: xs == [] || m != xs[0]
    ensures Subsequence(xs, more + ys)
  {
    if more == [] {
      assert more + ys == ys;
    } else if xs != [] {
      assert (more + ys)[1..] == more[1..] + ys;
      assert more[0] in more;
      assert forall m | m in more[1..] :: m in more;
      SkipAhead(xs, more[1..], ys);
    }
  }

  /** The original aggregates survive in order. */
  lemma {:induction false} KeepsOriginals(exprs: seq<Expr>, existing: seq<Expr>)
    requires forall e | e in exprs :: e in existing
    ensures Subsequence(exprs, Expanded(exprs, existing))
  {
    if exprs != [] {
      var more := Missing(existing, exprs[0]);
      var tail := Expanded(exprs[1..], existing + more);
      KeepsOriginals(exprs[1..], existing + more);
      SkipAhead(exprs[1..], more, tail);
      assert [exprs[0]] + more + tail == [exprs[0]] + (more + tail);
    }
  }

  /** The result is the originals and the additions, and nothing else. */
  lemma {:induction false} ExpandedContents(exprs: seq<Expr>, existing: seq<Expr>)
    ensures multiset(Expanded(exprs, existing)) == multiset(exprs) + multiset(Additions(exprs, existing))
  {
    hide Missing;
    if exprs != [] {
      var more := Missing(existing, exprs[0]);
      ExpandedContents(exprs[1..], existing + more);
      assert exprs == [exprs[0]] + exprs[1..];
    }
  }

  /** An average is directly followed by its sum, then its count, each if it is not there already. */
  lemma ExpandedSingle(e: Expr, existing: seq<Expr>)
    ensures Expanded([], existing) == []
    ensures !IsAvg(e) ==> Expanded([e], existing) == [e]
    ensures IsAvg(e) ==>
              var sum, count := AggregateFunction("sum", e.params), AggregateFunction("count", e.params);
              Expanded([e], existing)
                == [e] + (if sum in existing then [] else [sum]) + (if count in existing then [] else [count])
  {
    assert [e][1..] == [];
    assert "sum"[0] != "count"[0];
  }

  lemma {:induction false} AdditionsSplit(xs: seq<Expr>, ys: seq<Expr>, existing: seq<Expr>)
    ensures Additions(xs + ys, existing) == Additions(xs, existing) + Additions(ys, existing + Additions(xs, existing))
  {
    hide Missing;
    if xs == [] {
      assert xs + ys == ys && existing + [] == existing;
    } else {
      var more := Missing(existing, xs[0]);
      var later := Additions(xs[1..], existing + more);
      assert (xs + ys)[1..] == xs[1..] + ys;
      AdditionsSplit(xs[1..], ys, existing + more);
      assert existing + more + later == existing + (more + later);
    }
  }

  /** Later expressions see what earlier ones added. */
  lemma {:induction false} ExpandedSplit(xs: seq<Expr>, ys: seq<Expr>, existing: seq<Expr>)
    ensures Expanded(xs + ys, existing) == Expanded(xs, existing) + Expanded(ys, existing + Additions(xs, existing))
  {
    hide Missing;
    if xs == [] {
      assert xs + ys == ys && existing + [] == existing;
    } else {
      var more := Missing(existing, xs[0]);
      var later := Additions(xs[1..], existing + more);
      var first, rest := Expanded(xs[1..], existing + more), Expanded(ys, existing + more + later);
      assert (xs + ys)[1..] == xs[1..] + ys;
      ExpandedSplit(xs[1..], ys, existing + more);
      assert existing + more + later == existing + (more + later);
      assert [xs[0]] + more + (first + rest) == [xs[0]] + more + first + rest;
    }
  }

  ghost predicate Distinct(xs: seq<Expr>) {
    forall i, j | 0 <= i < j < |xs| :: xs[i] != xs[j]
  }

  /** Additions are new and come once; each is the sum or count of some average with its parameters. */
  lemma {:induction false} AdditionsFresh(exprs: seq<Expr>, existing: seq<Expr>)
    ensures Distinct(Additions(exprs, existing))
    ensures forall a | a in Additions(exprs, existing) :: a !in existing
    ensures forall a | a in Additions(exprs, existing) ::
              exists e | e in exprs && IsAvg(e) ::
                a == AggregateFunction("sum", e.params) || a == AggregateFunction("count", e.params)
  {
    hide EqIgnoreCase;
    if exprs != [] {
      var more := Missing(existing, exprs[0]);
      var rest := Additions(exprs[1..], existing + more);
      AdditionsFresh(exprs[1..], existing + more);
      assert Distinct(more) by {
        if |more| == 2 {
          assert "sum"[0] != "count"[0];
        }
      }
      forall a | a in rest ensures a !in existing && a !in more {
        assert a !in existing + more;
      }
      forall a | a in more
        ensures exists e | e in exprs && IsAvg(e) ::
                  a == AggregateFunction("sum", e.params) || a == AggregateFunction("count", e.params)
      {
        assert exprs[0] in exprs;
      }
    }
  }

  /** Every average ends up with its sum and count. */
  lemma {:induction false} AdditionsSuffice(exprs: seq<Expr>, existing: seq<Expr>)
    ensures forall e | e in exprs && IsAvg(e) ::
              && AggregateFunction("sum", e.params) in existing + Additions(exprs, existing)
              && AggregateFunction("count", e.params) in existing + Additions(exprs, existing)
  {
    if exprs != [] {
      var more := Missing(existing, exprs[0]);
      AdditionsSuffice(exprs[1..], existing + more);
      assert exprs == [exprs[0]] + exprs[1..];
      forall a ensures a in existing + more <==> a in existing || a in more { }
    }
  }

  lemma BuiltAreNoAverages(e: Expr)
    requires IsAvg(e)
    ensures !IsAvg(SumOf(e)) && !IsAvg(CountOf(e))
  {
    assert AsciiLower("sum"[0]) != AsciiLower("avg"[0]);
    assert |"count"| != |"avg"|;
  }

  /** The rewrite closes the list. */
  lemma RewriteCloses(exprs: seq<Expr>)
    ensures Closed(Expanded(exprs, exprs))
  {
    var result, more := Expanded(exprs, exprs), Additions(exprs, exprs);
    ExpandedContents(exprs, exprs);
    AdditionsFresh(exprs, exprs);
    AdditionsSuffice(exprs, exprs);
    forall e ensures e in result <==> e in exprs || e in more {
      assert e in result <==> e in multiset(result);
      assert multiset(result)[e] == multiset(exprs)[e] + multiset(more)[e];
    }
    forall e | e in result && IsAvg(e) ensures e in exprs {
      if e in more {
        var o :| o in exprs && IsAvg(o) && (e == SumOf(o) || e == CountOf(o));
        BuiltAreNoAverages(o);
      }
    }
  }

  /** It reports no change exactly on closed lists, and leaves those as they are. */
  lemma {:induction false} ClosedUnchanged(exprs: seq<Expr>, existing: seq<Expr>)
    ensures Additions(exprs, existing) == []
       <==> forall e | e in exprs && IsAvg(e) :: SumOf(e) in existing && CountOf(e) in existing
    ensures Additions(exprs, existing) == [] ==> Expanded(exprs, existing) == exprs
  {
    if exprs != [] {
      var more := Missing(existing, exprs[0]);
      ClosedUnchanged(exprs[1..], existing + more);
      assert exprs == [exprs[0]] + exprs[1..];
      if more == [] {
        assert existing + more == existing;
        assert [exprs[0]] + more == [exprs[0]];
      }
    }
  }

  /** A second run changes nothing. */
  method RunTwice(exprs: seq<Expr>) returns (result: seq<Expr>, again: bool)
    ensures !again && result == Expanded(exprs, exprs)
    ensures Subsequence(exprs, result) && Closed(result)
  {
    var once, changed := AddAvgSupport(exprs);
    result, again := AddAvgSupport(once);
    RewriteCloses(exprs);
    ClosedUnchanged(once, once);
    KeepsOriginals(exprs, exprs);
  }
}
