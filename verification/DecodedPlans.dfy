/** What decoding gives back: the original plan, field by field, but for scan sources and null treatments. */
module DecodedPlans {
  import opened Options
  import opened Results
  import opened DataTypeCodec
  import opened PlanAst
  import opened PlanCodec
  import opened PlanRoundTrip
  import opened PlanNodes

  // ---- decoded plans, field by field ----

  /** `b` is `a`, but every scan in it reads an empty table and no aggregate has a null treatment. */
  predicate EmptiedExpr(a: Expr, b: Expr)
    decreases a, 1
  {
    match a
    case Column(_, _) => b == a
    case Literal(_) => b == a
    case BinaryExpr(l, op, r) => b.BinaryExpr? && EmptiedExpr(l, b.left) && b.op == op && EmptiedExpr(r, b.right)
    case Cast(x, t) => b.Cast? && EmptiedExpr(x, b.expr) && b.dataType == t
    case Alias(x, relation, name) => b.Alias? && EmptiedExpr(x, b.expr) && b.relation == relation && b.name == name
    case AggregateFunction(func, args, distinct, filter, orderBy, _) =>
      && b.AggregateFunction? && b.func == func && EmptiedExprs(args, b.args) && b.distinct == distinct
      && EmptiedOptional(filter, b.filter) && EmptiedOrder(orderBy, b.orderBy) && b.nullTreatment == None
    case Between(x, negated, low, high) =>
      && b.Between? && EmptiedExpr(x, b.expr) && b.negated == negated
      && EmptiedExpr(low, b.low) && EmptiedExpr(high, b.high)
    case InList(x, list, negated) =>
      b.InList? && EmptiedExpr(x, b.expr) && EmptiedExprs(list, b.list) && b.negated == negated
    case ScalarFunction(func, args) => b.ScalarFunction? && b.func == func && EmptiedExprs(args, b.args)
    case InSubquery(x, subquery, negated) =>
      && b.InSubquery? && EmptiedExpr(x, b.expr) && EmptiedPlan(subquery.plan, b.subquery.plan)
      && EmptiedExprs(subquery.outerRefs, b.subquery.outerRefs) && b.negated == negated
    case Case(base, whenThen, elseExpr) =>
      && b.Case? && EmptiedOptional(base, b.base) && EmptiedPairs(whenThen, b.whenThen)
      && EmptiedOptional(elseExpr, b.elseExpr)
    case OtherExpr(_) => b == a
  }

  predicate EmptiedOptional(a: Option<Expr>, b: Option<Expr>)
    decreases a, 0
  {
    a.Some? == b.Some? && (a.Some? ==> EmptiedExpr(a.value, b.value))
  }

  predicate EmptiedExprs(xs: seq<Expr>, ys: seq<Expr>)
    decreases xs, 0
  {
    |xs| == |ys| && forall i | 0 <= i < |xs| :: EmptiedExpr(xs[i], ys[i])
  }

  predicate EmptiedPairs(xs: seq<(Expr, Expr)>, ys: seq<(Expr, Expr)>)
    decreases xs, 0
  {
    |xs| == |ys| && forall i | 0 <= i < |xs| :: EmptiedPair(xs[i], ys[i])
  }

  predicate EmptiedPair(a: (Expr, Expr), b: (Expr, Expr))
    decreases a, 0
  {
    EmptiedExpr(a.0, b.0) && EmptiedExpr(a.1, b.1)
  }

  predicate EmptiedSorts(xs: seq<Sort>, ys: seq<Sort>)
    decreases xs, 0
  {
    |xs| == |ys| && forall i | 0 <= i < |xs| :: EmptiedSort(xs[i], ys[i])
  }

  predicate EmptiedSort(a: Sort, b: Sort)
    decreases a, 0
  {
    EmptiedExpr(a.expr, b.expr) && a.asc == b.asc && a.nullsFirst == b.nullsFirst
  }

  predicate EmptiedOrder(a: OrderBy, b: OrderBy)
    decreases a, 0
  {
    a.OrderedBy? == b.OrderedBy? && (a.OrderedBy? ==> EmptiedSorts(a.keys, b.keys))
  }

  predicate EmptiedPlan(a: Plan, b: Plan)
    decreases a, 1
  {
    match a
    case TableScan(table, source, projection, filters, limit) =>
      && b.TableScan? && b.table == table && b.source.provider == EMPTY_TABLE && b.source.schema == source.schema
      && b.projection == projection && EmptiedExprs(filters, b.filters) && b.limit == limit
    case Projection(exprs, input) => b.Projection? && EmptiedExprs(exprs, b.exprs) && EmptiedPlan(input, b.input)
    case Filter(condition, input, having) =>
      b.Filter? && EmptiedExpr(condition, b.condition) && EmptiedPlan(input, b.input) && b.having == having
    case Aggregate(group, aggr, input) =>
      && b.Aggregate? && EmptiedExprs(group, b.groupExprs) && EmptiedExprs(aggr, b.aggrExprs)
      && EmptiedPlan(input, b.input)
    case SortPlan(keys, input, limit) =>
      b.SortPlan? && EmptiedSorts(keys, b.keys) && EmptiedPlan(input, b.input) && b.limit == limit
    case Join(left, right, on, filter, joinType, constraint, nullEqualsNull) =>
      && b.Join? && EmptiedPlan(left, b.left) && EmptiedPlan(right, b.right) && EmptiedPairs(on, b.on)
      && EmptiedOptional(filter, b.joinFilter) && b.joinType == joinType && b.constraint == constraint
      && b.nullEqualsNull == nullEqualsNull
    case SubqueryAlias(input, alias) => b.SubqueryAlias? && EmptiedPlan(input, b.input) && b.alias == alias
    case Limit(input, skip, fetch) =>
      b.Limit? && EmptiedPlan(input, b.input) && EmptiedOptional(skip, b.skip) && EmptiedOptional(fetch, b.fetch)
    case Rematerialize(input) => b.Rematerialize? && EmptiedPlan(input, b.input)
    case ResultCheck(input) => b.ResultCheck? && EmptiedPlan(input, b.input)
    case OtherExtension(_) => b == a
    case OtherPlan(_) => b == a
  }

  // ---- the normal form is the only plan in that relation ----

  lemma {:induction false} NormExprIs(a: Expr, b: Expr)
    ensures EmptiedExpr(a, b) <==> b == NormExpr(a)
    decreases a, 1, 1
  {
    hide EmptiedExprs, EmptiedOptional, EmptiedPairs, EmptiedOrder, EmptiedPlan,
         NormExprs, NormOptional, NormPairs, NormOrder, NormPlan;
    match a
    case BinaryExpr(l, _, r) =>
      if b.BinaryExpr? {
        NormExprIs(l, b.left);
        NormExprIs(r, b.right);
      }
    case Cast(x, _) => if b.Cast? { NormExprIs(x, b.expr); }
    case Alias(x, _, _) => if b.Alias? { NormExprIs(x, b.expr); }
    case Between(x, _, low, high) =>
      if b.Between? {
        NormExprIs(x, b.expr);
        NormExprIs(low, b.low);
        NormExprIs(high, b.high);
      }
    case Column(_, _) =>
    case Literal(_) =>
    case OtherExpr(_) =>
    case _ => NormListExprIs(a, b);
  }

  /** The expressions that hold lists, options or a subquery. */
  lemma {:induction false} NormListExprIs(a: Expr, b: Expr)
    requires a.AggregateFunction? || a.InList? || a.ScalarFunction? || a.InSubquery? || a.Case?
    ensures EmptiedExpr(a, b) <==> b == NormExpr(a)
    decreases a, 1, 0
  {
    hide EmptiedExprs, EmptiedOptional, EmptiedPairs, EmptiedOrder, EmptiedPlan,
         NormExprs, NormOptional, NormPairs, NormOrder, NormPlan;
    match a
    case AggregateFunction(_, args, _, filter, orderBy, _) =>
      if b.AggregateFunction? {
        NormExprsAre(args, b.args);
        NormOptionalIs(filter, b.filter);
        NormOrderIs(orderBy, b.orderBy);
      }
    case InList(x, list, _) =>
      if b.InList? {
        NormExprIs(x, b.expr);
        NormExprsAre(list, b.list);
      }
    case ScalarFunction(_, args) => if b.ScalarFunction? { NormExprsAre(args, b.args); }
    case InSubquery(x, subquery, _) =>
      if b.InSubquery? {
        NormExprIs(x, b.expr);
        NormPlanIs(subquery.plan, b.subquery.plan);
        NormExprsAre(subquery.outerRefs, b.subquery.outerRefs);
      }
    case Case(base, whenThen, elseExpr) =>
      if b.Case? {
        NormOptionalIs(base, b.base);
        NormPairsAre(whenThen, b.whenThen);
        NormOptionalIs(elseExpr, b.elseExpr);
      }
  }

  lemma {:induction false} NormOptionalIs(a: Option<Expr>, b: Option<Expr>)
    ensures EmptiedOptional(a, b) <==> b == NormOptional(a)
    decreases a, 0
  {
    if a.Some? && b.Some? {
      NormExprIs(a.value, b.value);
    }
  }

  lemma {:induction false} NormExprsAre(xs: seq<Expr>, ys: seq<Expr>)
    ensures EmptiedExprs(xs, ys) <==> ys == NormExprs(xs)
    decreases xs, 0
  {
    hide EmptiedExpr, NormExpr;
    if |xs| == |ys| {
      forall i | 0 <= i < |xs| ensures EmptiedExpr(xs[i], ys[i]) <==> ys[i] == NormExprs(xs)[i] {
        NormExprIs(xs[i], ys[i]);
      }
    }
  }

  lemma {:induction false} NormPairsAre(xs: seq<(Expr, Expr)>, ys: seq<(Expr, Expr)>)
    ensures EmptiedPairs(xs, ys) <==> ys == NormPairs(xs)
    decreases xs, 0
  {
    hide EmptiedPair, NormPair;
    if |xs| == |ys| {
      forall i | 0 <= i < |xs| ensures EmptiedPair(xs[i], ys[i]) <==> ys[i] == NormPairs(xs)[i] {
        NormPairIs(xs[i], ys[i]);
      }
    }
  }

  lemma {:induction false} NormPairIs(a: (Expr, Expr), b: (Expr, Expr))
    ensures EmptiedPair(a, b) <==> b == NormPair(a)
    decreases a, 0
  {
    NormExprIs(a.0, b.0);
    NormExprIs(a.1, b.1);
  }

  lemma {:induction false} NormSortsAre(xs: seq<Sort>, ys: seq<Sort>)
    ensures EmptiedSorts(xs, ys) <==> ys == NormSorts(xs)
    decreases xs, 0
  {
    hide EmptiedSort, NormSort;
    if |xs| == |ys| {
      forall i | 0 <= i < |xs| ensures EmptiedSort(xs[i], ys[i]) <==> ys[i] == NormSorts(xs)[i] {
        NormSortIs(xs[i], ys[i]);
      }
    }
  }

  lemma {:induction false} NormSortIs(a: Sort, b: Sort)
    ensures EmptiedSort(a, b) <==> b == NormSort(a)
    decreases a, 0
  {
    NormExprIs(a.expr, b.expr);
  }

  lemma {:induction false} NormOrderIs(a: OrderBy, b: OrderBy)
    ensures EmptiedOrder(a, b) <==> b == NormOrder(a)
    decreases a, 0
  {
    if a.OrderedBy? && b.OrderedBy? {
      NormSortsAre(a.keys, b.keys);
    }
  }

  lemma {:induction false} NormPlanIs(a: Plan, b: Plan)
    ensures EmptiedPlan(a, b) <==> b == NormPlan(a)
    decreases a, 1, 1
  {
    hide EmptiedExpr, EmptiedExprs, EmptiedOptional, EmptiedPairs, EmptiedSorts,
         NormExpr, NormExprs, NormOptional, NormPairs, NormSorts;
    match a
    case Projection(exprs, input) =>
      if b.Projection? {
        NormExprsAre(exprs, b.exprs);
        NormPlanIs(input, b.input);
      }
    case Filter(condition, input, _) =>
      if b.Filter? {
        NormExprIs(condition, b.condition);
        NormPlanIs(input, b.input);
      }
    case SubqueryAlias(input, _) => if b.SubqueryAlias? { NormPlanIs(input, b.input); }
    case Rematerialize(input) => if b.Rematerialize? { NormPlanIs(input, b.input); }
    case ResultCheck(input) => if b.ResultCheck? { NormPlanIs(input, b.input); }
    case OtherExtension(_) =>
    case OtherPlan(_) =>
    case _ => NormWidePlanIs(a, b);
  }

  /** The nodes with several parts. */
  lemma {:induction false} NormWidePlanIs(a: Plan, b: Plan)
    requires a.TableScan? || a.Aggregate? || a.SortPlan? || a.Join? || a.Limit?
    ensures EmptiedPlan(a, b) <==> b == NormPlan(a)
    decreases a, 1, 0
  {
    hide EmptiedExpr, EmptiedExprs, EmptiedOptional, EmptiedPairs, EmptiedSorts,
         NormExpr, NormExprs, NormOptional, NormPairs, NormSorts;
    match a
    case TableScan(_, _, _, filters, _) => if b.TableScan? { NormExprsAre(filters, b.filters); }
    case Aggregate(group, aggr, input) =>
      if b.Aggregate? {
        NormExprsAre(group, b.groupExprs);
        NormExprsAre(aggr, b.aggrExprs);
        NormPlanIs(input, b.input);
      }
    case SortPlan(keys, input, _) =>
      if b.SortPlan? {
        NormSortsAre(keys, b.keys);
        NormPlanIs(input, b.input);
      }
    case Join(left, right, on, filter, _, _, _) =>
      if b.Join? {
        NormPlanIs(left, b.left);
        NormPlanIs(right, b.right);
        NormPairsAre(on, b.on);
        NormOptionalIs(filter, b.joinFilter);
      }
    case Limit(input, skip, fetch) =>
      if b.Limit? {
        NormPlanIs(input, b.input);
        NormOptionalIs(skip, b.skip);
        NormOptionalIs(fetch, b.fetch);
      }
  }

  // ---- which plans encode: no unknown node at any depth ----

  predicate KnownExpr(e: Expr) {
    && !e.OtherExpr?
    && (e.Literal? ==> !e.scalar.OtherScalar?)
    && (e.Cast? ==> SupportedType(e.dataType))
  }

  predicate KnownPlan(p: Plan) {
    && !p.OtherExtension? && !p.OtherPlan?
    && (p.TableScan? ==> SupportedFields(p.source.schema.fields))
  }

  lemma SupportedExprHere(e: Expr)
    ensures SupportedExpr(e) <==>
              && KnownExpr(e) && (forall x | x in SubExprs(e) :: SupportedExpr(x))
              && (e.InSubquery? ==> SupportedPlan(e.subquery.plan))
  {
    hide SupportedType, SupportedPlan, SupportedExprs, SupportedPairs, SupportedSorts, PairExprs, SortExprs;
    match e
    case AggregateFunction(_, args, _, filter, orderBy, _) =>
      ExprsListed(args);
      assert filter.Some? ==> filter.value in SubExprs(e);
      if orderBy.OrderedBy? { SortsListed(orderBy.keys); }
    case InList(x, list, _) =>
      ExprsListed(list);
      assert x in SubExprs(e);
    case ScalarFunction(_, args) => ExprsListed(args);
    case InSubquery(x, subquery, _) =>
      ExprsListed(subquery.outerRefs);
      assert x in SubExprs(e);
    case Case(base, whenThen, elseExpr) =>
      PairsListed(whenThen);
      assert base.Some? ==> base.value in SubExprs(e);
      assert elseExpr.Some? ==> elseExpr.value in SubExprs(e);
    case BinaryExpr(l, _, r) => assert l in SubExprs(e) && r in SubExprs(e);
    case Between(x, _, low, high) => assert x in SubExprs(e) && low in SubExprs(e) && high in SubExprs(e);
    case Cast(x, _) => assert x in SubExprs(e);
    case Alias(x, _, _) => assert x in SubExprs(e);
    case _ =>
  }

  lemma SupportedPlanHere(p: Plan)
    ensures SupportedPlan(p) <==>
              && KnownPlan(p) && (forall x | x in ExprsOf(p) :: SupportedExpr(x))
              && (forall x | x in InputsOf(p) :: SupportedPlan(x))
  {
    hide SupportedExpr, SupportedFields, SupportedExprs, SupportedPairs, SupportedSorts, PairExprs, SortExprs;
    match p
    case TableScan(_, _, _, filters, _) => ExprsListed(filters);
    case Projection(exprs, input) =>
      ExprsListed(exprs);
      assert input in InputsOf(p);
    case Aggregate(group, aggr, input) =>
      ExprsListed(group);
      ExprsListed(aggr);
      assert input in InputsOf(p);
    case SortPlan(keys, input, _) =>
      SortsListed(keys);
      assert input in InputsOf(p);
    case Join(left, right, on, filter, _, _, _) =>
      PairsListed(on);
      assert filter.Some? ==> filter.value in ExprsOf(p);
      assert left in InputsOf(p) && right in InputsOf(p);
    case Filter(condition, input, _) => assert condition in ExprsOf(p) && input in InputsOf(p);
    case SubqueryAlias(input, _) => assert input in InputsOf(p);
    case Limit(input, skip, fetch) =>
      assert input in InputsOf(p);
      assert skip.Some? ==> skip.value in ExprsOf(p);
      assert fetch.Some? ==> fetch.value in ExprsOf(p);
    case Rematerialize(input) => assert input in InputsOf(p);
    case ResultCheck(input) => assert input in InputsOf(p);
    case _ =>
  }

  lemma ExprsListed(es: seq<Expr>)
    ensures SupportedExprs(es) <==> forall x | x in es :: SupportedExpr(x)
  {
    hide SupportedExpr;
    assert forall i | 0 <= i < |es| :: es[i] in es;
  }

  lemma SortsListed(ss: seq<Sort>)
    ensures SupportedSorts(ss) <==> forall x | x in SortExprs(ss) :: SupportedExpr(x)
  {
    hide SupportedExpr;
    var es := SortExprs(ss);
    ExprsListed(es);
    assert forall i | 0 <= i < |ss| :: SupportedSort(ss[i]) <==> SupportedExpr(es[i]);
  }

  lemma PairsListed(ps: seq<(Expr, Expr)>)
    ensures SupportedPairs(ps) <==> forall x | x in PairExprs(ps) :: SupportedExpr(x)
  {
    hide SupportedExpr;
    var n, es := |ps|, PairExprs(ps);
    ExprsListed(es);
    assert forall i | 0 <= i < n :: es[i] == ps[i].0 && es[n + i] == ps[i].1;
    if SupportedPairs(ps) {
      forall j | 0 <= j < |es| ensures SupportedExpr(es[j]) {
        assert SupportedPair(ps[if j < n then j else j - n]);
      }
    }
    if SupportedExprs(es) {
      forall i | 0 <= i < n ensures SupportedPair(ps[i]) {
        assert SupportedExpr(es[i]) && SupportedExpr(es[n + i]);
      }
    }
  }

  lemma {:induction false} SupportedExprMeaning(e: Expr)
    ensures SupportedExpr(e) <==> EveryInExpr(e, KnownPlan, KnownExpr)
    decreases e
  {
    hide SupportedExpr, SubExprs, KnownExpr, KnownPlan;
    SupportedExprHere(e);
    forall x | x in SubExprs(e) ensures SupportedExpr(x) <==> EveryInExpr(x, KnownPlan, KnownExpr) {
      SupportedExprMeaning(x);
    }
    if e.InSubquery? {
      SupportedPlanMeaning(e.subquery.plan);
    }
  }

  /** A plan encodes exactly when every node, at every depth and inside every subquery, is of a known kind. */
  lemma {:induction false} SupportedPlanMeaning(p: Plan)
    ensures SupportedPlan(p) <==> EveryInPlan(p, KnownPlan, KnownExpr)
    decreases p
  {
    hide SupportedPlan, ExprsOf, InputsOf, KnownExpr, KnownPlan;
    SupportedPlanHere(p);
    forall x | x in ExprsOf(p) ensures SupportedExpr(x) <==> EveryInExpr(x, KnownPlan, KnownExpr) {
      SupportedExprMeaning(x);
    }
    forall x | x in InputsOf(p) ensures SupportedPlan(x) <==> EveryInPlan(x, KnownPlan, KnownExpr) {
      SupportedPlanMeaning(x);
    }
  }

  // ---- the decoded plan ----

  /** A plan whose names are stable decodes, and to the plan itself but for scan sources and null treatments. */
  lemma DecodedPlan(p: Plan, env: Env)
    requires env.Sound() && EveryInPlan(p, KnownPlan, KnownExpr)
    ensures FromPlan(p, env).Ok?
    ensures var q := ToPlan(FromPlan(p, env).value, env);
            q.Ok? && EmptiedPlan(p, q.value) <==> StablePlan(p, env)
  {
    hide EmptiedPlan, NormPlan, FromPlan, ToPlan, StablePlan, SupportedPlan, EveryInPlan;
    SupportedPlanMeaning(p);
    PlanRoundTrips(p, env);
    var q := ToPlan(FromPlan(p, env).value, env);
    if q.Ok? {
      NormPlanIs(p, q.value);
    }
  }

  /** No scan with a source of its own. */
  predicate EmptyScan(p: Plan) {
    p.TableScan? ==> p.source.provider == EMPTY_TABLE
  }

  predicate NoTreatment(e: Expr) {
    e.AggregateFunction? ==> e.nullTreatment == None
  }

  lemma EmptiedExprHere(e: Expr)
    ensures EmptiedExpr(e, e) <==>
              && NoTreatment(e) && (forall x | x in SubExprs(e) :: EmptiedExpr(x, x))
              && (e.InSubquery? ==> EmptiedPlan(e.subquery.plan, e.subquery.plan))
  {
    hide EmptiedPlan, EmptiedExprs, EmptiedPairs, EmptiedSorts, PairExprs, SortExprs;
    match e
    case AggregateFunction(_, args, _, filter, orderBy, _) =>
      SelfExprs(args);
      assert filter.Some? ==> filter.value in SubExprs(e);
      if orderBy.OrderedBy? { SelfSorts(orderBy.keys); }
    case InList(x, list, _) =>
      SelfExprs(list);
      assert x in SubExprs(e);
    case ScalarFunction(_, args) => SelfExprs(args);
    case InSubquery(x, subquery, _) =>
      SelfExprs(subquery.outerRefs);
      assert x in SubExprs(e);
    case Case(base, whenThen, elseExpr) =>
      SelfPairs(whenThen);
      assert base.Some? ==> base.value in SubExprs(e);
      assert elseExpr.Some? ==> elseExpr.value in SubExprs(e);
    case BinaryExpr(l, _, r) => assert l in SubExprs(e) && r in SubExprs(e);
    case Between(x, _, low, high) => assert x in SubExprs(e) && low in SubExprs(e) && high in SubExprs(e);
    case Cast(x, _) => assert x in SubExprs(e);
    case Alias(x, _, _) => assert x in SubExprs(e);
    case _ =>
  }

  lemma EmptiedPlanHere(p: Plan)
    ensures EmptiedPlan(p, p) <==>
              && EmptyScan(p) && (forall x | x in ExprsOf(p) :: EmptiedExpr(x, x))
              && (forall x | x in InputsOf(p) :: EmptiedPlan(x, x))
  {
    hide EmptiedExpr, EmptiedExprs, EmptiedPairs, EmptiedSorts, PairExprs, SortExprs;
    match p
    case TableScan(_, _, _, filters, _) => SelfExprs(filters);
    case Projection(exprs, input) =>
      SelfExprs(exprs);
      assert input in InputsOf(p);
    case Aggregate(group, aggr, input) =>
      SelfExprs(group);
      SelfExprs(aggr);
      assert input in InputsOf(p);
    case SortPlan(keys, input, _) =>
      SelfSorts(keys);
      assert input in InputsOf(p);
    case Join(left, right, on, filter, _, _, _) =>
      SelfPairs(on);
      assert filter.Some? ==> filter.value in ExprsOf(p);
      assert left in InputsOf(p) && right in InputsOf(p);
    case Filter(condition, input, _) => assert condition in ExprsOf(p) && input in InputsOf(p);
    case SubqueryAlias(input, _) => assert input in InputsOf(p);
    case Limit(input, skip, fetch) =>
      assert input in InputsOf(p);
      assert skip.Some? ==> skip.value in ExprsOf(p);
      assert fetch.Some? ==> fetch.value in ExprsOf(p);
    case Rematerialize(input) => assert input in InputsOf(p);
    case ResultCheck(input) => assert input in InputsOf(p);
    case _ =>
  }

  lemma SelfExprs(es: seq<Expr>)
    ensures EmptiedExprs(es, es) <==> forall x | x in es :: EmptiedExpr(x, x)
  {
    hide EmptiedExpr;
    assert forall i | 0 <= i < |es| :: es[i] in es;
  }

  lemma SelfSorts(ss: seq<Sort>)
    ensures EmptiedSorts(ss, ss) <==> forall x | x in SortExprs(ss) :: EmptiedExpr(x, x)
  {
    hide EmptiedExpr;
    var es := SortExprs(ss);
    SelfExprs(es);
    assert forall i | 0 <= i < |ss| :: EmptiedSort(ss[i], ss[i]) <==> EmptiedExpr(es[i], es[i]);
  }

  lemma SelfPairs(ps: seq<(Expr, Expr)>)
    ensures EmptiedPairs(ps, ps) <==> forall x | x in PairExprs(ps) :: EmptiedExpr(x, x)
  {
    hide EmptiedExpr;
    var n, es := |ps|, PairExprs(ps);
    SelfExprs(es);
    assert forall i | 0 <= i < n :: es[i] == ps[i].0 && es[n + i] == ps[i].1;
    if EmptiedPairs(ps, ps) {
      forall j | 0 <= j < |es| ensures EmptiedExpr(es[j], es[j]) {
        assert EmptiedPair(ps[if j < n then j else j - n], ps[if j < n then j else j - n]);
      }
    }
    if EmptiedExprs(es, es) {
      forall i | 0 <= i < n ensures EmptiedPair(ps[i], ps[i]) {
        assert EmptiedExpr(es[i], es[i]) && EmptiedExpr(es[n + i], es[n + i]);
      }
    }
  }

  lemma {:induction false} SelfEmptiedExpr(e: Expr)
    ensures EmptiedExpr(e, e) <==> EveryInExpr(e, EmptyScan, NoTreatment)
    decreases e
  {
    hide EmptiedExpr, SubExprs, EmptyScan, NoTreatment;
    EmptiedExprHere(e);
    forall x | x in SubExprs(e) ensures EmptiedExpr(x, x) <==> EveryInExpr(x, EmptyScan, NoTreatment) {
      SelfEmptiedExpr(x);
    }
    if e.InSubquery? {
      SelfEmptiedPlan(e.subquery.plan);
    }
  }

  lemma {:induction false} SelfEmptiedPlan(p: Plan)
    ensures EmptiedPlan(p, p) <==> EveryInPlan(p, EmptyScan, NoTreatment)
    decreases p
  {
    hide EmptiedPlan, ExprsOf, InputsOf, EmptyScan, NoTreatment;
    EmptiedPlanHere(p);
    forall x | x in ExprsOf(p) ensures EmptiedExpr(x, x) <==> EveryInExpr(x, EmptyScan, NoTreatment) {
      SelfEmptiedExpr(x);
    }
    forall x | x in InputsOf(p) ensures EmptiedPlan(x, x) <==> EveryInPlan(x, EmptyScan, NoTreatment) {
      SelfEmptiedPlan(x);
    }
  }

  /** A stable plan decodes to exactly itself if and only if its scans are empty and it has no null treatments. */
  lemma DecodesToItself(p: Plan, env: Env)
    requires env.Sound() && EveryInPlan(p, KnownPlan, KnownExpr) && StablePlan(p, env)
    ensures FromPlan(p, env).Ok?
    ensures ToPlan(FromPlan(p, env).value, env) == Ok(p) <==> EveryInPlan(p, EmptyScan, NoTreatment)
  {
    hide EmptiedPlan, NormPlan, FromPlan, ToPlan, StablePlan, SupportedPlan, EveryInPlan;
    SupportedPlanMeaning(p);
    PlanRoundTrips(p, env);
    NormPlanIs(p, p);
    SelfEmptiedPlan(p);
  }
}
