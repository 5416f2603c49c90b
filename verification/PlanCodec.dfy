/** Encoding plans and expressions, subqueries included, and decoding them. */
module PlanCodec {
  import opened Options
  import opened Results
  import opened DataTypeCodec
  import opened PlanAst

  // ---- encoding ----

  function FromScalar(v: Scalar, env: Env): Result<ScalarRepr> {
    match v
    case NullScalar => Ok(NullScalarRepr)
    case Copied(t, payload) => Ok(CopiedRepr(t, payload))
    case Decimal128Scalar(d, precision, scale) => Ok(Decimal128ScalarRepr(d, precision, scale))
    case Decimal256Scalar(d, precision, scale) =>
      Ok(Decimal256ScalarRepr(if d.Some? then Some(env.showDecimal(d.value)) else None, precision, scale))
    case FixedSizeBinaryScalar(size, bytes) => Ok(FixedSizeBinaryScalarRepr(size, bytes))
    case TimestampScalar(unit, instant, tz) => Ok(TimestampScalarRepr(unit, instant, tz))
    case IntervalDayTimeScalar(d) =>
      Ok(IntervalDayTimeScalarRepr(if d.Some? then Some((d.value.days, d.value.milliseconds)) else None))
    case IntervalMonthDayNanoScalar(d) =>
      Ok(IntervalMonthDayNanoScalarRepr(
        if d.Some? then Some((d.value.months, d.value.days, d.value.nanoseconds)) else None))
    case OtherScalar(_) => Err
  }

  function FromRelation(r: Option<TableRef>, env: Env): Option<string> {
    if r.Some? then Some(env.showTable(r.value)) else None
  }

  function FromExpr(e: Expr, env: Env): Result<ExprRepr>
    decreases e, 1
  {
    match e
    case Column(relation, name) => Ok(ColumnRepr(FromRelation(relation, env), name))
    case Literal(v) => var v' :- FromScalar(v, env); Ok(LiteralRepr(v'))
    case BinaryExpr(l, op, r) =>
      var l' :- FromExpr(l, env);
      var r' :- FromExpr(r, env);
      Ok(BinaryExprRepr(l', op, r'))
    case Cast(x, t) =>
      var x' :- FromExpr(x, env);
      var t' :- FromDataType(t, env.listing);
      Ok(CastRepr(x', t'))
    case Alias(x, relation, name) =>
      var x' :- FromExpr(x, env);
      Ok(AliasRepr(x', FromRelation(relation, env), name))
    case AggregateFunction(func, args, distinct, filter, orderBy, _) =>
      var args' :- FromExprs(args, env);
      var filter' :- FromOptional(filter, env);
      var orderBy' :- FromOrder(orderBy, env);
      Ok(AggregateFunctionRepr(func.name, args', distinct, filter', orderBy'))
    case Between(x, negated, low, high) =>
      var x' :- FromExpr(x, env);
      var low' :- FromExpr(low, env);
      var high' :- FromExpr(high, env);
      Ok(BetweenRepr(x', negated, low', high'))
    case InList(x, list, negated) =>
      var x' :- FromExpr(x, env);
      var list' :- FromExprs(list, env);
      Ok(InListRepr(x', list', negated))
    case ScalarFunction(func, args) =>
      var args' :- FromExprs(args, env);
      Ok(ScalarFunctionRepr(func.name, args'))
    case InSubquery(x, subquery, negated) =>
      var x' :- FromExpr(x, env);
      var plan' :- FromPlan(subquery.plan, env);
      var outer' :- FromExprs(subquery.outerRefs, env);
      Ok(InSubqueryRepr(x', SubqueryRepr(plan', outer'), negated))
    case Case(base, whenThen, elseExpr) =>
      var base' :- FromOptional(base, env);
      var whenThen' :- FromPairsOfExprs(whenThen, env);
      var else' :- FromOptional(elseExpr, env);
      Ok(CaseRepr(base', whenThen', else'))
    case OtherExpr(_) => Err
  }

  function FromOptional(e: Option<Expr>, env: Env): Result<Option<ExprRepr>>
    decreases e, 0
  {
    if e.None? then Ok(None) else var x :- FromExpr(e.value, env); Ok(Some(x))
  }

  function FromExprs(es: seq<Expr>, env: Env): Result<seq<ExprRepr>>
    decreases es, 0
  {
    if es == [] then Ok([])
    else
      var x :- FromExpr(es[0], env);
      var xs :- FromExprs(es[1..], env);
      Ok([x] + xs)
  }

  function FromPairsOfExprs(ps: seq<(Expr, Expr)>, env: Env): Result<seq<(ExprRepr, ExprRepr)>>
    decreases ps, 0
  {
    if ps == [] then Ok([])
    else
      var x :- FromPairOfExprs(ps[0], env);
      var rest :- FromPairsOfExprs(ps[1..], env);
      Ok([x] + rest)
  }

  function FromPairOfExprs(p: (Expr, Expr), env: Env): Result<(ExprRepr, ExprRepr)>
    decreases p, 0
  {
    var a :- FromExpr(p.0, env);
    var b :- FromExpr(p.1, env);
    Ok((a, b))
  }

  function FromSorts(ss: seq<Sort>, env: Env): Result<seq<SortRepr>>
    decreases ss, 0
  {
    if ss == [] then Ok([])
    else
      var x :- FromSort(ss[0], env);
      var rest :- FromSorts(ss[1..], env);
      Ok([x] + rest)
  }

  function FromSort(s: Sort, env: Env): Result<SortRepr>
    decreases s, 0
  {
    var x :- FromExpr(s.expr, env);
    Ok(SortRepr(x, s.asc, s.nullsFirst))
  }

  function FromOrder(o: OrderBy, env: Env): Result<OrderByRepr>
    decreases o, 0
  {
    if o.Unordered? then Ok(UnorderedRepr) else var ss :- FromSorts(o.keys, env); Ok(OrderedByRepr(ss))
  }

  function FromPlan(p: Plan, env: Env): Result<PlanRepr>
    decreases p, 1
  {
    match p
    case TableScan(table, source, projection, filters, limit) =>
      var schema :- FromSchema(source.schema, env.listing);
      var filters' :- FromExprs(filters, env);
      Ok(TableScanRepr(env.showTable(table), schema, projection, filters', limit))
    case Projection(exprs, input) =>
      var exprs' :- FromExprs(exprs, env);
      var input' :- FromPlan(input, env);
      Ok(ProjectionRepr(exprs', input'))
    case Filter(condition, input, having) =>
      var condition' :- FromExpr(condition, env);
      var input' :- FromPlan(input, env);
      Ok(FilterRepr(condition', input', having))
    case Aggregate(group, aggr, input) =>
      var group' :- FromExprs(group, env);
      var aggr' :- FromExprs(aggr, env);
      var input' :- FromPlan(input, env);
      Ok(AggregateRepr(group', aggr', input'))
    case SortPlan(keys, input, limit) =>
      var keys' :- FromSorts(keys, env);
      var input' :- FromPlan(input, env);
      Ok(SortPlanRepr(keys', input', limit))
    case Join(left, right, on, filter, joinType, constraint, nullEqualsNull) =>
      var left' :- FromPlan(left, env);
      var right' :- FromPlan(right, env);
      var on' :- FromPairsOfExprs(on, env);
      var filter' :- FromOptional(filter, env);
      Ok(JoinRepr(left', right', on', filter', joinType, constraint, nullEqualsNull))
    case SubqueryAlias(input, alias) =>
      var input' :- FromPlan(input, env);
      Ok(SubqueryAliasRepr(input', env.showTable(alias)))
    case Limit(input, skip, fetch) =>
      var input' :- FromPlan(input, env);
      var skip' :- FromOptional(skip, env);
      var fetch' :- FromOptional(fetch, env);
      Ok(LimitRepr(input', skip', fetch'))
    case Rematerialize(input) => var input' :- FromPlan(input, env); Ok(RematerializeRepr(input'))
    case ResultCheck(input) => var input' :- FromPlan(input, env); Ok(ResultCheckRepr(input'))
    case _ => Err
  }

  // ---- decoding ----

  function ToScalar(v: ScalarRepr, env: Env): Result<Scalar> {
    match v
    case NullScalarRepr => Ok(NullScalar)
    case CopiedRepr(t, payload) => Ok(Copied(t, payload))
    case Decimal128ScalarRepr(d, precision, scale) => Ok(Decimal128Scalar(d, precision, scale))
    case Decimal256ScalarRepr(None, precision, scale) => Ok(Decimal256Scalar(None, precision, scale))
    case Decimal256ScalarRepr(Some(text), precision, scale) =>
      var d :- env.readDecimal(text);
      Ok(Decimal256Scalar(Some(d), precision, scale))
    case FixedSizeBinaryScalarRepr(size, bytes) => Ok(FixedSizeBinaryScalar(size, bytes))
    case TimestampScalarRepr(unit, instant, tz) => Ok(TimestampScalar(unit, instant, tz))
    case IntervalDayTimeScalarRepr(d) =>
      Ok(IntervalDayTimeScalar(if d.Some? then Some(DayTimeValue(d.value.0, d.value.1)) else None))
    case IntervalMonthDayNanoScalarRepr(d) =>
      Ok(IntervalMonthDayNanoScalar(if d.Some? then Some(MonthDayNanoValue(d.value.0, d.value.1, d.value.2)) else None))
  }

  function ToRelation(r: Option<string>, env: Env): Option<TableRef> {
    if r.Some? then Some(env.readTable(r.value)) else None
  }

  function Registered(f: Option<Func>): Result<Func> {
    if f.Some? then Ok(f.value) else Err
  }

  function ToExpr(e: ExprRepr, env: Env): Result<Expr>
    decreases e, 1
  {
    match e
    case ColumnRepr(relation, name) => Ok(Column(ToRelation(relation, env), name))
    case LiteralRepr(v) => var v' :- ToScalar(v, env); Ok(Literal(v'))
    case BinaryExprRepr(l, op, r) =>
      var l' :- ToExpr(l, env);
      var r' :- ToExpr(r, env);
      Ok(BinaryExpr(l', op, r'))
    case CastRepr(x, t) =>
      var x' :- ToExpr(x, env);
      var t' :- ToDataType(t);
      Ok(Cast(x', t'))
    case AliasRepr(x, relation, name) =>
      var x' :- ToExpr(x, env);
      Ok(Alias(x', ToRelation(relation, env), name))
    case AggregateFunctionRepr(func, args, distinct, filter, orderBy) =>
      var func' :- Registered(env.aggregates(func));
      var args' :- ToExprs(args, env);
      var filter' :- ToOptional(filter, env);
      var orderBy' :- ToOrder(orderBy, env);
      Ok(AggregateFunction(func', args', distinct, filter', orderBy', None))
    case BetweenRepr(x, negated, low, high) =>
      var x' :- ToExpr(x, env);
      var low' :- ToExpr(low, env);
      var high' :- ToExpr(high, env);
      Ok(Between(x', negated, low', high'))
    case InListRepr(x, list, negated) =>
      var x' :- ToExpr(x, env);
      var list' :- ToExprs(list, env);
      Ok(InList(x', list', negated))
    case ScalarFunctionRepr(func, args) =>
      var func' :- Registered(env.scalars(func));
      var args' :- ToExprs(args, env);
      Ok(ScalarFunction(func', args'))
    case InSubqueryRepr(x, subquery, negated) =>
      var plan' :- ToPlan(subquery.plan, env);
      var outer' :- ToExprs(subquery.outerRefs, env);
      var x' :- ToExpr(x, env);
      Ok(InSubquery(x', Subquery(plan', outer'), negated))
    case CaseRepr(base, whenThen, elseExpr) =>
      var base' :- ToOptional(base, env);
      var whenThen' :- ToPairsOfExprs(whenThen, env);
      var else' :- ToOptional(elseExpr, env);
      Ok(Case(base', whenThen', else'))
  }

  function ToOptional(e: Option<ExprRepr>, env: Env): Result<Option<Expr>>
    decreases e, 0
  {
    if e.None? then Ok(None) else var x :- ToExpr(e.value, env); Ok(Some(x))
  }

  function ToExprs(es: seq<ExprRepr>, env: Env): Result<seq<Expr>>
    decreases es, 0
  {
    if es == [] then Ok([])
    else
      var x :- ToExpr(es[0], env);
      var xs :- ToExprs(es[1..], env);
      Ok([x] + xs)
  }

  function ToPairsOfExprs(ps: seq<(ExprRepr, ExprRepr)>, env: Env): Result<seq<(Expr, Expr)>>
    decreases ps, 0
  {
    if ps == [] then Ok([])
    else
      var x :- ToPairOfExprs(ps[0], env);
      var rest :- ToPairsOfExprs(ps[1..], env);
      Ok([x] + rest)
  }

  function ToPairOfExprs(p: (ExprRepr, ExprRepr), env: Env): Result<(Expr, Expr)>
    decreases p, 0
  {
    var a :- ToExpr(p.0, env);
    var b :- ToExpr(p.1, env);
    Ok((a, b))
  }

  function ToSorts(ss: seq<SortRepr>, env: Env): Result<seq<Sort>>
    decreases ss, 0
  {
    if ss == [] then Ok([])
    else
      var x :- ToSort(ss[0], env);
      var rest :- ToSorts(ss[1..], env);
      Ok([x] + rest)
  }

  function ToSort(s: SortRepr, env: Env): Result<Sort>
    decreases s, 0
  {
    var x :- ToExpr(s.expr, env);
    Ok(Sort(x, s.asc, s.nullsFirst))
  }

  function ToOrder(o: OrderByRepr, env: Env): Result<OrderBy>
    decreases o, 0
  {
    if o.UnorderedRepr? then Ok(Unordered) else var ss :- ToSorts(o.keys, env); Ok(OrderedBy(ss))
  }

  /** The source of a decoded scan: an empty table with the encoded schema. */
  const EMPTY_TABLE := "empty"

  function ToPlan(p: PlanRepr, env: Env): Result<Plan>
    decreases p, 1
  {
    match p
    case TableScanRepr(table, schema, projection, filters, limit) =>
      var schema' :- ToSchema(schema);
      var filters' :- ToExprs(filters, env);
      Ok(TableScan(env.readTable(table), Source(EMPTY_TABLE, schema'), projection, filters', limit))
    case ProjectionRepr(exprs, input) =>
      var input' :- ToPlan(input, env);
      var exprs' :- ToExprs(exprs, env);
      Ok(Projection(exprs', input'))
    case FilterRepr(condition, input, having) =>
      var input' :- ToPlan(input, env);
      var condition' :- ToExpr(condition, env);
      Ok(Filter(condition', input', having))
    case AggregateRepr(group, aggr, input) =>
      var input' :- ToPlan(input, env);
      var group' :- ToExprs(group, env);
      var aggr' :- ToExprs(aggr, env);
      Ok(Aggregate(group', aggr', input'))
    case SortPlanRepr(keys, input, limit) =>
      var input' :- ToPlan(input, env);
      var keys' :- ToSorts(keys, env);
      Ok(SortPlan(keys', input', limit))
    case JoinRepr(left, right, on, filter, joinType, constraint, nullEqualsNull) =>
      var left' :- ToPlan(left, env);
      var right' :- ToPlan(right, env);
      var on' :- ToPairsOfExprs(on, env);
      var filter' :- ToOptional(filter, env);
      Ok(Join(left', right', on', filter', joinType, constraint, nullEqualsNull))
    case SubqueryAliasRepr(input, alias) =>
      var input' :- ToPlan(input, env);
      Ok(SubqueryAlias(input', env.readTable(alias)))
    case LimitRepr(input, skip, fetch) =>
      var input' :- ToPlan(input, env);
      var skip' :- ToOptional(skip, env);
      var fetch' :- ToOptional(fetch, env);
      Ok(Limit(input', skip', fetch'))
    case RematerializeRepr(input) => var input' :- ToPlan(input, env); Ok(Rematerialize(input'))
    case ResultCheckRepr(input) => var input' :- ToPlan(input, env); Ok(ResultCheck(input'))
  }
}
