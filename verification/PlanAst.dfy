/** The logical plans and expressions the codec reads, and the serialisable forms it writes. */
module PlanAst {
  import opened Options
  import opened Results
  import opened DataTypeCodec

  /** A table name with its qualifiers. */
  datatype TableRef = TableRef(parts: seq<string>)

  /** A registered function: what the name finds may differ from what the plan holds. */
  datatype Func = Func(name: string, body: nat)

  /** A scan's source: the table behind it, and its schema. */
  datatype Source = Source(provider: string, schema: Schema)

  /** Literals whose payload the codec copies; a float is copied by its bits. */
  datatype Payload = Flag(bool) | Number(int) | Bits(int) | Text(string) | Bytes(seq<int>)

  datatype ScalarType =
    | BooleanValue | Float32Value | Float64Value
    | Int8Value | Int16Value | Int32Value | Int64Value | UInt8Value | UInt16Value | UInt32Value | UInt64Value
    | Utf8Value | Utf8ViewValue | LargeUtf8Value | BinaryValue | BinaryViewValue | LargeBinaryValue
    | Date32Value | Date64Value
    | Time32SecondValue | Time32MillisecondValue | Time64MicrosecondValue | Time64NanosecondValue
    | IntervalYearMonthValue
    | DurationSecondValue | DurationMillisecondValue | DurationMicrosecondValue | DurationNanosecondValue

  datatype DayTimeValue = DayTimeValue(days: int, milliseconds: int)

  datatype MonthDayNanoValue = MonthDayNanoValue(months: int, days: int, nanoseconds: int)

  datatype Scalar =
    | NullScalar
    | Copied(scalarType: ScalarType, payload: Option<Payload>)
    | Decimal128Scalar(decimal: Option<int>, precision: int, scale: int)
    | Decimal256Scalar(decimal: Option<int>, precision: int, scale: int)
    | FixedSizeBinaryScalar(size: int, bytes: Option<seq<int>>)
    | TimestampScalar(unit: TimeUnit, instant: Option<int>, timezone: Option<string>)
    | IntervalDayTimeScalar(dayTime: Option<DayTimeValue>)
    | IntervalMonthDayNanoScalar(monthDayNano: Option<MonthDayNanoValue>)
    | OtherScalar(name: string)

  datatype ScalarRepr =
    | NullScalarRepr
    | CopiedRepr(scalarType: ScalarType, payload: Option<Payload>)
    | Decimal128ScalarRepr(decimal: Option<int>, precision: int, scale: int)
    | Decimal256ScalarRepr(text: Option<string>, precision: int, scale: int)
    | FixedSizeBinaryScalarRepr(size: int, bytes: Option<seq<int>>)
    | TimestampScalarRepr(unit: TimeUnit, instant: Option<int>, timezone: Option<string>)
    | IntervalDayTimeScalarRepr(dayTime: Option<(int, int)>)
    | IntervalMonthDayNanoScalarRepr(monthDayNano: Option<(int, int, int)>)

  /** Operators, join types and join constraints are encoded name by name; any one of them stands for itself here. */
  type Operator = nat
  type JoinType = nat
  type JoinConstraint = nat

  datatype NullTreatment = RespectNulls | IgnoreNulls

  datatype Sort = Sort(expr: Expr, asc: bool, nullsFirst: bool)

  /** An optional ordering; an empty one is not the same as none. */
  datatype OrderBy = Unordered | OrderedBy(keys: seq<Sort>)

  datatype Subquery = Subquery(plan: Plan, outerRefs: seq<Expr>)

  datatype Expr =
    | Column(relation: Option<TableRef>, name: string)
    | Literal(scalar: Scalar)
    | BinaryExpr(left: Expr, op: Operator, right: Expr)
    | Cast(expr: Expr, dataType: DataType)
    | Alias(expr: Expr, relation: Option<TableRef>, name: string)
    | AggregateFunction(func: Func, args: seq<Expr>, distinct: bool, filter: Option<Expr>,
                        orderBy: OrderBy, nullTreatment: Option<NullTreatment>)
    | Between(expr: Expr, negated: bool, low: Expr, high: Expr)
    | InList(expr: Expr, list: seq<Expr>, negated: bool)
    | ScalarFunction(func: Func, args: seq<Expr>)
    | InSubquery(expr: Expr, subquery: Subquery, negated: bool)
    | Case(base: Option<Expr>, whenThen: seq<(Expr, Expr)>, elseExpr: Option<Expr>)
    | OtherExpr(text: string)

  datatype Plan =
    | TableScan(table: TableRef, source: Source, projection: Option<seq<nat>>, filters: seq<Expr>, limit: Option<nat>)
    | Projection(exprs: seq<Expr>, input: Plan)
    | Filter(condition: Expr, input: Plan, having: bool)
    | Aggregate(groupExprs: seq<Expr>, aggrExprs: seq<Expr>, input: Plan)
    | SortPlan(keys: seq<Sort>, input: Plan, limit: Option<nat>)
    | Join(left: Plan, right: Plan, on: seq<(Expr, Expr)>, joinFilter: Option<Expr>, joinType: JoinType,
           constraint: JoinConstraint, nullEqualsNull: bool)
    | SubqueryAlias(input: Plan, alias: TableRef)
    | Limit(input: Plan, skip: Option<Expr>, fetch: Option<Expr>)
    | Rematerialize(input: Plan)
    | ResultCheck(input: Plan)
    | OtherExtension(name: string)
    | OtherPlan(name: string)

  datatype SortRepr = SortRepr(expr: ExprRepr, asc: bool, nullsFirst: bool)

  datatype OrderByRepr = UnorderedRepr | OrderedByRepr(keys: seq<SortRepr>)

  datatype SubqueryRepr = SubqueryRepr(plan: PlanRepr, outerRefs: seq<ExprRepr>)

  datatype ExprRepr =
    | ColumnRepr(relation: Option<string>, name: string)
    | LiteralRepr(scalar: ScalarRepr)
    | BinaryExprRepr(left: ExprRepr, op: Operator, right: ExprRepr)
    | CastRepr(expr: ExprRepr, dataType: DataTypeRepr)
    | AliasRepr(expr: ExprRepr, relation: Option<string>, name: string)
    | AggregateFunctionRepr(func: string, args: seq<ExprRepr>, distinct: bool, filter: Option<ExprRepr>,
                            orderBy: OrderByRepr)
    | BetweenRepr(expr: ExprRepr, negated: bool, low: ExprRepr, high: ExprRepr)
    | InListRepr(expr: ExprRepr, list: seq<ExprRepr>, negated: bool)
    | ScalarFunctionRepr(func: string, args: seq<ExprRepr>)
    | InSubqueryRepr(expr: ExprRepr, subquery: SubqueryRepr, negated: bool)
    | CaseRepr(base: Option<ExprRepr>, whenThen: seq<(ExprRepr, ExprRepr)>, elseExpr: Option<ExprRepr>)

  datatype PlanRepr =
    | TableScanRepr(table: string, schema: SchemaRepr, projection: Option<seq<nat>>, filters: seq<ExprRepr>,
                    limit: Option<nat>)
    | ProjectionRepr(exprs: seq<ExprRepr>, input: PlanRepr)
    | FilterRepr(condition: ExprRepr, input: PlanRepr, having: bool)
    | AggregateRepr(groupExprs: seq<ExprRepr>, aggrExprs: seq<ExprRepr>, input: PlanRepr)
    | SortPlanRepr(keys: seq<SortRepr>, input: PlanRepr, limit: Option<nat>)
    | JoinRepr(left: PlanRepr, right: PlanRepr, on: seq<(ExprRepr, ExprRepr)>, joinFilter: Option<ExprRepr>,
               joinType: JoinType, constraint: JoinConstraint, nullEqualsNull: bool)
    | SubqueryAliasRepr(input: PlanRepr, alias: string)
    | LimitRepr(input: PlanRepr, skip: Option<ExprRepr>, fetch: Option<ExprRepr>)
    | RematerializeRepr(input: PlanRepr)
    | ResultCheckRepr(input: PlanRepr)

  /**
   * What the codec relies on from outside: how hash maps list their entries, how table names and wide decimals are
   * written and read, and which functions the decoding session has registered.
   */
  datatype Env = Env(
    listing: Listing,
    showTable: TableRef -> string,
    readTable: string -> TableRef,
    aggregates: string -> Option<Func>,
    scalars: string -> Option<Func>,
    showDecimal: int -> string,
    readDecimal: string -> Result<int>)
  {
    /** Listings are complete and a written decimal reads back; nothing is assumed of names. */
    ghost predicate Sound() {
      GoodListing(listing) && forall v :: readDecimal(showDecimal(v)) == Ok(v)
    }
  }
}
