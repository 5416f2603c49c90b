/** Plans as trees of nodes: what each expression and plan directly holds, and properties of nodes at every depth. */
module PlanNodes {
  import opened Options
  import opened PlanAst

  function OptionalExprs(e: Option<Expr>): seq<Expr> {
    if e.Some? then [e.value] else []
  }

  function PairExprs(ps: seq<(Expr, Expr)>): seq<Expr> {
    seq(|ps|, i requires 0 <= i < |ps| => ps[i].0) + seq(|ps|, i requires 0 <= i < |ps| => ps[i].1)
  }

  function SortExprs(ss: seq<Sort>): seq<Expr> {
    seq(|ss|, i requires 0 <= i < |ss| => ss[i].expr)
  }

  /** The expressions directly inside an expression, a subquery's outer references among them. */
  function SubExprs(e: Expr): (r: seq<Expr>)
    ensures forall x | x in r :: (e decreases to x)
  {
    match e
    case Column(_, _) => []
    case Literal(_) => []
    case BinaryExpr(l, _, r) => [l, r]
    case Cast(x, _) => [x]
    case Alias(x, _, _) => [x]
    case AggregateFunction(_, args, _, filter, orderBy, _) =>
      args + OptionalExprs(filter) + if orderBy.OrderedBy? then SortExprs(orderBy.keys) else []
    case Between(x, _, low, high) => [x, low, high]
    case InList(x, list, _) => [x] + list
    case ScalarFunction(_, args) => args
    case InSubquery(x, subquery, _) => [x] + subquery.outerRefs
    case Case(base, whenThen, elseExpr) => OptionalExprs(base) + PairExprs(whenThen) + OptionalExprs(elseExpr)
    case OtherExpr(_) => []
  }

  function ExprsOf(p: Plan): (r: seq<Expr>)
    ensures forall x | x in r :: (p decreases to x)
  {
    match p
    case TableScan(_, _, _, filters, _) => filters
    case Projection(exprs, _) => exprs
    case Filter(condition, _, _) => [condition]
    case Aggregate(group, aggr, _) => group + aggr
    case SortPlan(keys, _, _) => SortExprs(keys)
    case Join(_, _, on, filter, _, _, _) => PairExprs(on) + OptionalExprs(filter)
    case Limit(_, skip, fetch) => OptionalExprs(skip) + OptionalExprs(fetch)
    case _ => []
  }

  function InputsOf(p: Plan): (r: seq<Plan>)
    ensures forall x | x in r :: (p decreases to x)
  {
    match p
    case Projection(_, input) => [input]
    case Filter(_, input, _) => [input]
    case Aggregate(_, _, input) => [input]
    case SortPlan(_, input, _) => [input]
    case Join(left, right, _, _, _, _, _) => [left, right]
    case SubqueryAlias(input, _) => [input]
    case Limit(input, _, _) => [input]
    case Rematerialize(input) => [input]
    case ResultCheck(input) => [input]
    case _ => []
  }

  /** Every expression and every plan at or below `e`, subqueries included, is as wanted. */
  predicate EveryInExpr(e: Expr, plans: Plan -> bool, exprs: Expr -> bool)
    decreases e
  {
    && exprs(e)
    && (forall x | x in SubExprs(e) :: EveryInExpr(x, plans, exprs))
    && (e.InSubquery? ==> EveryInPlan(e.subquery.plan, plans, exprs))
  }

  predicate EveryInPlan(p: Plan, plans: Plan -> bool, exprs: Expr -> bool)
    decreases p
  {
    && plans(p)
    && (forall x | x in ExprsOf(p) :: EveryInExpr(x, plans, exprs))
    && (forall x | x in InputsOf(p) :: EveryInPlan(x, plans, exprs))
  }
}
