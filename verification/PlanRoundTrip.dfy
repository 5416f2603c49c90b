/** What survives the codec: the supported fragment, and the exact condition under which decoding restores a plan. */
module PlanRoundTrip {
  import opened Options
  import opened Results
  import opened DataTypeCodec
  import opened PlanAst
  import opened PlanCodec

  // ---- the supported fragment ----

  predicate SupportedExpr(e: Expr)
    decreases e, 1
  {
    match e
    case Column(_, _) => true
    case Literal(v) => !v.OtherScalar?
    case BinaryExpr(l, _, r) => SupportedExpr(l) && SupportedExpr(r)
    case Cast(x, t) => SupportedExpr(x) && SupportedType(t)
    case Alias(x, _, _) => SupportedExpr(x)
    case AggregateFunction(_, args, _, filter, orderBy, _) =>
      SupportedExprs(args) && SupportedOptional(filter) && SupportedOrder(orderBy)
    case Between(x, _, low, high) => SupportedExpr(x) && SupportedExpr(low) && SupportedExpr(high)
    case InList(x, list, _) => SupportedExpr(x) && SupportedExprs(list)
    case ScalarFunction(_, args) => SupportedExprs(args)
    case InSubquery(x, subquery, _) =>
      SupportedExpr(x) && SupportedPlan(subquery.plan) && SupportedExprs(subquery.outerRefs)
    case Case(base, whenThen, elseExpr) =>
      SupportedOptional(base) && SupportedPairs(whenThen) && SupportedOptional(elseExpr)
    case OtherExpr(_) => false
  }

  predicate SupportedOptional(e: Option<Expr>)
    decreases e, 0
  {
    e.Some? ==> SupportedExpr(e.value)
  }

  predicate SupportedExprs(es: seq<Expr>)
    decreases es, 0
  {
    forall i | 0 <= i < |es| :: SupportedExpr(es[i])
  }

  predicate SupportedPairs(ps: seq<(Expr, Expr)>)
    decreases ps, 0
  {
    forall i | 0 <= i < |ps| :: SupportedPair(ps[i])
  }

  predicate SupportedPair(p: (Expr, Expr))
    decreases p, 0
  {
    SupportedExpr(p.0) && SupportedExpr(p.1)
  }

  predicate SupportedSorts(ss: seq<Sort>)
    decreases ss, 0
  {
    forall i | 0 <= i < |ss| :: SupportedSort(ss[i])
  }

  predicate SupportedSort(s: Sort)
    decreases s, 0
  {
    SupportedExpr(s.expr)
  }

  predicate SupportedOrder(o: OrderBy)
    decreases o, 0
  {
    o.OrderedBy? ==> SupportedSorts(o.keys)
  }

  predicate SupportedPlan(p: Plan)
    decreases p, 1
  {
    match p
    case TableScan(_, source, _, filters, _) => SupportedFields(source.schema.fields) && SupportedExprs(filters)
    case Projection(exprs, input) => SupportedExprs(exprs) && SupportedPlan(input)
    case Filter(condition, input, _) => SupportedExpr(condition) && SupportedPlan(input)
    case Aggregate(group, aggr, input) => SupportedExprs(group) && SupportedExprs(aggr) && SupportedPlan(input)
    case SortPlan(keys, input, _) => SupportedSorts(keys) && SupportedPlan(input)
    case Join(left, right, on, filter, _, _, _) =>
      SupportedPlan(left) && SupportedPlan(right) && SupportedPairs(on) && SupportedOptional(filter)
    case SubqueryAlias(input, _) => SupportedPlan(input)
    case Limit(input, skip, fetch) => SupportedPlan(input) && SupportedOptional(skip) && SupportedOptional(fetch)
    case Rematerialize(input) => SupportedPlan(input)
    case ResultCheck(input) => SupportedPlan(input)
    case OtherExtension(_) => false
    case OtherPlan(_) => false
  }

  // ---- what decoding cannot restore: scan sources and null treatments ----

  function NormExpr(e: Expr): Expr
    decreases e, 1
  {
    match e
    case BinaryExpr(l, op, r) => BinaryExpr(NormExpr(l), op, NormExpr(r))
    case Cast(x, t) => Cast(NormExpr(x), t)
    case Alias(x, relation, name) => Alias(NormExpr(x), relation, name)
    case AggregateFunction(func, args, distinct, filter, orderBy, _) =>
      AggregateFunction(func, NormExprs(args), distinct, NormOptional(filter), NormOrder(orderBy), None)
    case Between(x, negated, low, high) => Between(NormExpr(x), negated, NormExpr(low), NormExpr(high))
    case InList(x, list, negated) => InList(NormExpr(x), NormExprs(list), negated)
    case ScalarFunction(func, args) => ScalarFunction(func, NormExprs(args))
    case InSubquery(x, subquery, negated) =>
      InSubquery(NormExpr(x), Subquery(NormPlan(subquery.plan), NormExprs(subquery.outerRefs)), negated)
    case Case(base, whenThen, elseExpr) => Case(NormOptional(base), NormPairs(whenThen), NormOptional(elseExpr))
    case _ => e
  }

  function NormOptional(e: Option<Expr>): Option<Expr>
    decreases e, 0
  {
    if e.None? then None else Some(NormExpr(e.value))
  }

  function NormExprs(es: seq<Expr>): (r: seq<Expr>)
    ensures |r| == |es|
    decreases es, 0
  {
    seq(|es|, i requires 0 <= i < |es| => NormExpr(es[i]))
  }

  function NormPairs(ps: seq<(Expr, Expr)>): (r: seq<(Expr, Expr)>)
    ensures |r| == |ps|
    decreases ps, 0
  {
    seq(|ps|, i requires 0 <= i < |ps| => NormPair(ps[i]))
  }

  function NormPair(p: (Expr, Expr)): (Expr, Expr)
    decreases p, 0
  {
    (NormExpr(p.0), NormExpr(p.1))
  }

  function NormSorts(ss: seq<Sort>): (r: seq<Sort>)
    ensures |r| == |ss|
    decreases ss, 0
  {
    seq(|ss|, i requires 0 <= i < |ss| => NormSort(ss[i]))
  }

  function NormSort(s: Sort): Sort
    decreases s, 0
  {
    Sort(NormExpr(s.expr), s.asc, s.nullsFirst)
  }

  function NormOrder(o: OrderBy): OrderBy
    decreases o, 0
  {
    if o.Unordered? then Unordered else OrderedBy(NormSorts(o.keys))
  }

  function NormPlan(p: Plan): Plan
    decreases p, 1
  {
    match p
    case TableScan(table, source, projection, filters, limit) =>
      TableScan(table, Source(EMPTY_TABLE, source.schema), projection, NormExprs(filters), limit)
    case Projection(exprs, input) => Projection(NormExprs(exprs), NormPlan(input))
    case Filter(condition, input, having) => Filter(NormExpr(condition), NormPlan(input), having)
    case Aggregate(group, aggr, input) => Aggregate(NormExprs(group), NormExprs(aggr), NormPlan(input))
    case SortPlan(keys, input, limit) => SortPlan(NormSorts(keys), NormPlan(input), limit)
    case Join(left, right, on, filter, joinType, constraint, nullEqualsNull) =>
      Join(NormPlan(left), NormPlan(right), NormPairs(on), NormOptional(filter), joinType, constraint, nullEqualsNull)
    case SubqueryAlias(input, alias) => SubqueryAlias(NormPlan(input), alias)
    case Limit(input, skip, fetch) => Limit(NormPlan(input), NormOptional(skip), NormOptional(fetch))
    case Rematerialize(input) => Rematerialize(NormPlan(input))
    case ResultCheck(input) => ResultCheck(NormPlan(input))
    case _ => p
  }

  // ---- names that find themselves again ----

  predicate StableTable(t: TableRef, env: Env) {
    env.readTable(env.showTable(t)) == t
  }

  predicate StableRelation(r: Option<TableRef>, env: Env) {
    r.Some? ==> StableTable(r.value, env)
  }

  /** Every table name reads back and every function name finds the function the plan holds. */
  predicate StableExpr(e: Expr, env: Env)
    decreases e, 1
  {
    match e
    case Column(relation, _) => StableRelation(relation, env)
    case Literal(_) => true
    case BinaryExpr(l, _, r) => StableExpr(l, env) && StableExpr(r, env)
    case Cast(x, _) => StableExpr(x, env)
    case Alias(x, relation, _) => StableExpr(x, env) && StableRelation(relation, env)
    case AggregateFunction(func, args, _, filter, orderBy, _) =>
      env.aggregates(func.name) == Some(func) &&
      StableExprs(args, env) && StableOptional(filter, env) && StableOrder(orderBy, env)
    case Between(x, _, low, high) => StableExpr(x, env) && StableExpr(low, env) && StableExpr(high, env)
    case InList(x, list, _) => StableExpr(x, env) && StableExprs(list, env)
    case ScalarFunction(func, args) => env.scalars(func.name) == Some(func) && StableExprs(args, env)
    case InSubquery(x, subquery, _) =>
      StableExpr(x, env) && StablePlan(subquery.plan, env) && StableExprs(subquery.outerRefs, env)
    case Case(base, whenThen, elseExpr) =>
      StableOptional(base, env) && StablePairs(whenThen, env) && StableOptional(elseExpr, env)
    case OtherExpr(_) => true
  }

  predicate StableOptional(e: Option<Expr>, env: Env)
    decreases e, 0
  {
    e.Some? ==> StableExpr(e.value, env)
  }

  predicate StableExprs(es: seq<Expr>, env: Env)
    decreases es, 0
  {
    forall i | 0 <= i < |es| :: StableExpr(es[i], env)
  }

  predicate StablePairs(ps: seq<(Expr, Expr)>, env: Env)
    decreases ps, 0
  {
    forall i | 0 <= i < |ps| :: StablePair(ps[i], env)
  }

  predicate StablePair(p: (Expr, Expr), env: Env)
    decreases p, 0
  {
    StableExpr(p.0, env) && StableExpr(p.1, env)
  }

  predicate StableSorts(ss: seq<Sort>, env: Env)
    decreases ss, 0
  {
    forall i | 0 <= i < |ss| :: StableSort(ss[i], env)
  }

  predicate StableSort(s: Sort, env: Env)
    decreases s, 0
  {
    StableExpr(s.expr, env)
  }

  predicate StableOrder(o: OrderBy, env: Env)
    decreases o, 0
  {
    o.OrderedBy? ==> StableSorts(o.keys, env)
  }

  predicate StablePlan(p: Plan, env: Env)
    decreases p, 1
  {
    match p
    case TableScan(table, _, _, filters, _) => StableTable(table, env) && StableExprs(filters, env)
    case Projection(exprs, input) => StableExprs(exprs, env) && StablePlan(input, env)
    case Filter(condition, input, _) => StableExpr(condition, env) && StablePlan(input, env)
    case Aggregate(group, aggr, input) =>
      StableExprs(group, env) && StableExprs(aggr, env) && StablePlan(input, env)
    case SortPlan(keys, input, _) => StableSorts(keys, env) && StablePlan(input, env)
    case Join(left, right, on, filter, _, _, _) =>
      StablePlan(left, env) && StablePlan(right, env) && StablePairs(on, env) && StableOptional(filter, env)
    case SubqueryAlias(input, alias) => StablePlan(input, env) && StableTable(alias, env)
    case Limit(input, skip, fetch) =>
      StablePlan(input, env) && StableOptional(skip, env) && StableOptional(fetch, env)
    case Rematerialize(input) => StablePlan(input, env)
    case ResultCheck(input) => StablePlan(input, env)
    case OtherExtension(_) => true
    case OtherPlan(_) => true
  }

  // ---- the round trip ----

  lemma ScalarRoundTrip(v: Scalar, env: Env)
    requires env.Sound()
    ensures FromScalar(v, env).Ok? <==> !v.OtherScalar?
    ensures !v.OtherScalar? ==> ToScalar(FromScalar(v, env).value, env) == Ok(v)
  {
    match v
    case Decimal256Scalar(Some(d), _, _) => assert env.readDecimal(env.showDecimal(d)) == Ok(d);
    case _ =>
  }

  /** An expression encodes exactly when supported, and decodes to itself, normalised, exactly when it is stable. */
  lemma {:induction false} ExprRoundTrip(e: Expr, env: Env)
    requires env.Sound()
    ensures FromExpr(e, env).Ok? <==> SupportedExpr(e)
    ensures SupportedExpr(e) ==> (ToExpr(FromExpr(e, env).value, env) == Ok(NormExpr(e)) <==> StableExpr(e, env))
    decreases e, 1, 1
  {
    hide FromScalar, ToScalar, FromDataType, ToDataType, SupportedType, FromExprs, ToExprs, NormExprs, SupportedExprs,
         StableExprs, FromOptional, ToOptional, NormOptional, FromOrder, ToOrder, NormOrder, FromPairsOfExprs,
         ToPairsOfExprs, NormPairs, SupportedPairs, StablePairs, FromPlan, ToPlan, NormPlan, SupportedPlan, StablePlan,
         SupportedOptional, StableOptional, SupportedOrder, StableOrder;
    match e
    case Column(_, _) =>
    case Literal(v) => ScalarRoundTrip(v, env);
    case BinaryExpr(l, _, r) =>
      ExprRoundTrip(l, env);
      ExprRoundTrip(r, env);
    case Cast(x, t) =>
      ExprRoundTrip(x, env);
      TypeRoundTrip(t, env.listing);
    case Alias(x, _, _) => ExprRoundTrip(x, env);
    case Between(x, _, low, high) =>
      ExprRoundTrip(x, env);
      ExprRoundTrip(low, env);
      ExprRoundTrip(high, env);
    case OtherExpr(_) =>
    case _ => ListExprRoundTrip(e, env);
  }

  /** The expressions that hold lists, options or a subquery. */
  lemma {:induction false} ListExprRoundTrip(e: Expr, env: Env)
    requires env.Sound()
    requires e.AggregateFunction? || e.InList? || e.ScalarFunction? || e.InSubquery? || e.Case?
    ensures FromExpr(e, env).Ok? <==> SupportedExpr(e)
    ensures SupportedExpr(e) ==> (ToExpr(FromExpr(e, env).value, env) == Ok(NormExpr(e)) <==> StableExpr(e, env))
    decreases e, 1, 0
  {
    hide FromScalar, ToScalar, FromDataType, ToDataType, SupportedType, FromExprs, ToExprs, NormExprs, SupportedExprs,
         StableExprs, FromOptional, ToOptional, NormOptional, FromOrder, ToOrder, NormOrder, FromPairsOfExprs,
         ToPairsOfExprs, NormPairs, SupportedPairs, StablePairs, FromPlan, ToPlan, NormPlan, SupportedPlan, StablePlan,
         SupportedOptional, StableOptional, SupportedOrder, StableOrder;
    match e
    case AggregateFunction(_, args, _, filter, orderBy, _) =>
      ExprsRoundTrip(args, env);
      OptionalRoundTrip(filter, env);
      OrderRoundTrip(orderBy, env);
    case InList(x, list, _) =>
      ExprRoundTrip(x, env);
      ExprsRoundTrip(list, env);
    case ScalarFunction(_, args) => ExprsRoundTrip(args, env);
    case InSubquery(x, subquery, _) =>
      ExprRoundTrip(x, env);
      PlanRoundTrips(subquery.plan, env);
      ExprsRoundTrip(subquery.outerRefs, env);
    case Case(base, whenThen, elseExpr) =>
      OptionalRoundTrip(base, env);
      PairsRoundTrip(whenThen, env);
      OptionalRoundTrip(elseExpr, env);
  }

  lemma {:induction false} OptionalRoundTrip(e: Option<Expr>, env: Env)
    requires env.Sound()
    ensures FromOptional(e, env).Ok? <==> SupportedOptional(e)
    ensures SupportedOptional(e) ==>
              (ToOptional(FromOptional(e, env).value, env) == Ok(NormOptional(e)) <==> StableOptional(e, env))
    decreases e, 0
  {
    if e.Some? {
      ExprRoundTrip(e.value, env);
    }
  }

  lemma {:induction false} ExprsRoundTrip(es: seq<Expr>, env: Env)
    requires env.Sound()
    ensures FromExprs(es, env).Ok? <==> SupportedExprs(es)
    ensures SupportedExprs(es) ==>
              (ToExprs(FromExprs(es, env).value, env) == Ok(NormExprs(es)) <==> StableExprs(es, env))
    decreases es, 0
  {
    hide FromExpr, ToExpr, SupportedExpr, StableExpr, NormExpr;
    if es != [] {
      ExprRoundTrip(es[0], env);
      ExprsRoundTrip(es[1..], env);
      assert SupportedExprs(es) <==> SupportedExpr(es[0]) && SupportedExprs(es[1..]) by {
        assert es == [es[0]] + es[1..];
      }
      assert StableExprs(es, env) <==> StableExpr(es[0], env) && StableExprs(es[1..], env) by {
        assert es == [es[0]] + es[1..];
      }
      assert NormExprs(es) == [NormExpr(es[0])] + NormExprs(es[1..]);
      if SupportedExprs(es) {
        var x, xs := FromExpr(es[0], env).value, FromExprs(es[1..], env).value;
        assert ([x] + xs)[1..] == xs;
        SplitEqual(ToExpr(x, env), ToExprs(xs, env), NormExpr(es[0]), NormExprs(es[1..]));
      }
    }
  }

  /** A head and a tail decode to a given list exactly when each decodes to its part. */
  lemma SplitEqual<T>(head: Result<T>, tail: Result<seq<T>>, h: T, t: seq<T>)
    ensures head.Ok? && tail.Ok? ==> ([head.value] + tail.value == [h] + t <==> head.value == h && tail.value == t)
  {
    if head.Ok? && tail.Ok? && [head.value] + tail.value == [h] + t {
      assert ([head.value] + tail.value)[0] == ([h] + t)[0];
      assert ([head.value] + tail.value)[1..] == ([h] + t)[1..];
      assert tail.value == ([head.value] + tail.value)[1..] && t == ([h] + t)[1..];
    }
  }

  lemma {:induction false} PairRoundTrip(p: (Expr, Expr), env: Env)
    requires env.Sound()
    ensures FromPairOfExprs(p, env).Ok? <==> SupportedPair(p)
    ensures SupportedPair(p) ==>
              (ToPairOfExprs(FromPairOfExprs(p, env).value, env) == Ok(NormPair(p)) <==> StablePair(p, env))
    decreases p, 0
  {
    hide FromExpr, ToExpr, SupportedExpr, StableExpr, NormExpr;
    ExprRoundTrip(p.0, env);
    ExprRoundTrip(p.1, env);
  }

  lemma {:induction false} PairsRoundTrip(ps: seq<(Expr, Expr)>, env: Env)
    requires env.Sound()
    ensures FromPairsOfExprs(ps, env).Ok? <==> SupportedPairs(ps)
    ensures SupportedPairs(ps) ==>
              (ToPairsOfExprs(FromPairsOfExprs(ps, env).value, env) == Ok(NormPairs(ps)) <==> StablePairs(ps, env))
    decreases ps, 0
  {
    hide FromPairOfExprs, ToPairOfExprs, SupportedPair, StablePair, NormPair;
    if ps != [] {
      PairRoundTrip(ps[0], env);
      PairsRoundTrip(ps[1..], env);
      assert ps == [ps[0]] + ps[1..];
      assert SupportedPairs(ps) <==> SupportedPair(ps[0]) && SupportedPairs(ps[1..]);
      assert StablePairs(ps, env) <==> StablePair(ps[0], env) && StablePairs(ps[1..], env);
      assert NormPairs(ps) == [NormPair(ps[0])] + NormPairs(ps[1..]);
      if SupportedPairs(ps) {
        var x, rest := FromPairOfExprs(ps[0], env).value, FromPairsOfExprs(ps[1..], env).value;
        assert ([x] + rest)[1..] == rest;
        SplitEqual(ToPairOfExprs(x, env), ToPairsOfExprs(rest, env), NormPair(ps[0]), NormPairs(ps[1..]));
      }
    }
  }

  lemma {:induction false} SortRoundTrip(s: Sort, env: Env)
    requires env.Sound()
    ensures FromSort(s, env).Ok? <==> SupportedSort(s)
    ensures SupportedSort(s) ==> (ToSort(FromSort(s, env).value, env) == Ok(NormSort(s)) <==> StableSort(s, env))
    decreases s, 0
  {
    hide FromExpr, ToExpr, SupportedExpr, StableExpr, NormExpr;
    ExprRoundTrip(s.expr, env);
  }

  lemma {:induction false} SortsRoundTrip(ss: seq<Sort>, env: Env)
    requires env.Sound()
    ensures FromSorts(ss, env).Ok? <==> SupportedSorts(ss)
    ensures SupportedSorts(ss) ==>
              (ToSorts(FromSorts(ss, env).value, env) == Ok(NormSorts(ss)) <==> StableSorts(ss, env))
    decreases ss, 0
  {
    hide FromSort, ToSort, SupportedSort, StableSort, NormSort;
    if ss != [] {
      SortRoundTrip(ss[0], env);
      SortsRoundTrip(ss[1..], env);
      assert ss == [ss[0]] + ss[1..];
      assert SupportedSorts(ss) <==> SupportedSort(ss[0]) && SupportedSorts(ss[1..]);
      assert StableSorts(ss, env) <==> StableSort(ss[0], env) && StableSorts(ss[1..], env);
      assert NormSorts(ss) == [NormSort(ss[0])] + NormSorts(ss[1..]);
      if SupportedSorts(ss) {
        var x, rest := FromSort(ss[0], env).value, FromSorts(ss[1..], env).value;
        assert ([x] + rest)[1..] == rest;
        SplitEqual(ToSort(x, env), ToSorts(rest, env), NormSort(ss[0]), NormSorts(ss[1..]));
      }
    }
  }

  lemma {:induction false} OrderRoundTrip(o: OrderBy, env: Env)
    requires env.Sound()
    ensures FromOrder(o, env).Ok? <==> SupportedOrder(o)
    ensures SupportedOrder(o) ==>
              (ToOrder(FromOrder(o, env).value, env) == Ok(NormOrder(o)) <==> StableOrder(o, env))
    decreases o, 0
  {
    hide FromSorts, ToSorts, NormSorts, SupportedSorts, StableSorts;
    if o.OrderedBy? {
      SortsRoundTrip(o.keys, env);
    }
  }

  /** A plan encodes exactly when supported, and decodes to itself, normalised, exactly when its names are stable. */
  lemma {:induction false} PlanRoundTrips(p: Plan, env: Env)
    requires env.Sound()
    ensures FromPlan(p, env).Ok? <==> SupportedPlan(p)
    ensures SupportedPlan(p) ==> (ToPlan(FromPlan(p, env).value, env) == Ok(NormPlan(p)) <==> StablePlan(p, env))
    decreases p, 1, 1
  {
    hide FromExprs, ToExprs, NormExprs, SupportedExprs, StableExprs, FromOptional, ToOptional, NormOptional,
         SupportedOptional, StableOptional, FromSorts, ToSorts, NormSorts, SupportedSorts, StableSorts,
         FromPairsOfExprs, ToPairsOfExprs, NormPairs, SupportedPairs, StablePairs, FromSchema, ToSchema,
         SupportedFields, FromExpr, ToExpr, NormExpr, SupportedExpr, StableExpr;
    match p
    case Projection(exprs, input) =>
      ExprsRoundTrip(exprs, env);
      PlanRoundTrips(input, env);
    case Filter(condition, input, _) =>
      ExprRoundTrip(condition, env);
      PlanRoundTrips(input, env);
    case SubqueryAlias(input, _) => PlanRoundTrips(input, env);
    case Rematerialize(input) => PlanRoundTrips(input, env);
    case ResultCheck(input) => PlanRoundTrips(input, env);
    case OtherExtension(_) =>
    case OtherPlan(_) =>
    case _ => WidePlanRoundTrip(p, env);
  }

  /** The nodes with several parts to encode. */
  lemma {:induction false} WidePlanRoundTrip(p: Plan, env: Env)
    requires env.Sound()
    requires p.TableScan? || p.Aggregate? || p.SortPlan? || p.Join? || p.Limit?
    ensures FromPlan(p, env).Ok? <==> SupportedPlan(p)
    ensures SupportedPlan(p) ==> (ToPlan(FromPlan(p, env).value, env) == Ok(NormPlan(p)) <==> StablePlan(p, env))
    decreases p, 1, 0
  {
    hide FromExprs, ToExprs, NormExprs, SupportedExprs, StableExprs, FromOptional, ToOptional, NormOptional,
         SupportedOptional, StableOptional, FromSorts, ToSorts, NormSorts, SupportedSorts, StableSorts,
         FromPairsOfExprs, ToPairsOfExprs, NormPairs, SupportedPairs, StablePairs, FromSchema, ToSchema,
         SupportedFields, FromExpr, ToExpr, NormExpr, SupportedExpr, StableExpr;
    match p
    case TableScan(_, source, _, filters, _) =>
      SchemaRoundTrip(source.schema, env.listing);
      ExprsRoundTrip(filters, env);
    case Aggregate(group, aggr, input) =>
      ExprsRoundTrip(group, env);
      ExprsRoundTrip(aggr, env);
      PlanRoundTrips(input, env);
    case SortPlan(keys, input, _) =>
      SortsRoundTrip(keys, env);
      PlanRoundTrips(input, env);
    case Join(left, right, on, filter, _, _, _) =>
      PlanRoundTrips(left, env);
      PlanRoundTrips(right, env);
      PairsRoundTrip(on, env);
      OptionalRoundTrip(filter, env);
    case Limit(input, skip, fetch) =>
      PlanRoundTrips(input, env);
      OptionalRoundTrip(skip, env);
      OptionalRoundTrip(fetch, env);
  }
}
