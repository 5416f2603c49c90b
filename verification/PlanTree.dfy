/** Logical plans as trees of nodes, paths into them, and what rebuilding a node does. */
module PlanTree {

  import opened Options
  import opened Results

  type Schema = seq<string>

  datatype Expr = EqExpr(left: Expr, right: Expr) | OtherExpr(text: string)

  datatype Kind =
    | Filter
    | Aggregate
    | Join(on: seq<(Expr, Expr)>, filter: Option<Expr>)
    | Rematerialize
    | ResultCheck
    | EmptyRelation(produceOneRow: bool)
    | Other(name: string)

  /** A node owns its expressions (a join owns its keys and filter instead) and remembers its output schema. */
  datatype Plan = Plan(kind: Kind, exprs: seq<Expr>, schema: Schema, inputs: seq<Plan>)

  // ---- rebuilding a node ----

  function Flattened(on: seq<(Expr, Expr)>): (r: seq<Expr>)
    ensures |r| == 2 * |on|
    ensures on != [] ==> r[0] == on[0].0
  {
    if on == [] then [] else [on[0].0, on[0].1] + Flattened(on[1..])
  }

  function FilterExprs(filter: Option<Expr>): seq<Expr> {
    match filter case None => [] case Some(e) => [e]
  }

  /** `plan.expressions()`: a join's key pairs come out flattened, followed by its filter. */
  function Expressions(plan: Plan): seq<Expr> {
    match plan.kind
    case Join(on, filter) => Flattened(on) + FilterExprs(filter)
    case _ => plan.exprs
  }

  function Equalities(on: seq<(Expr, Expr)>): (r: seq<Expr>)
    ensures |r| == |on| && forall i | 0 <= i < |on| :: r[i] == EqExpr(on[i].0, on[i].1)
  {
    seq(|on|, i requires 0 <= i < |on| => EqExpr(on[i].0, on[i].1))
  }

  /** The argument a rebuild expects: each key pair as one equality. */
  function ExpressionsForRebuild(plan: Plan): seq<Expr> {
    match plan.kind
    case Join(on, filter) => Equalities(on) + FilterExprs(filter)
    case _ => plan.exprs
  }

  function Pairs(eqs: seq<Expr>): (r: seq<(Expr, Expr)>)
    requires forall e | e in eqs :: e.EqExpr?
    ensures |r| == |eqs| && forall i | 0 <= i < |eqs| :: r[i] == (eqs[i].left, eqs[i].right)
  {
    seq(|eqs|, i requires 0 <= i < |eqs| => (eqs[i].left, eqs[i].right))
  }

  /**
   * The contract of `with_new_exprs`: a join takes as many equalities as it has key pairs, then at most one filter;
   * any other node takes its expressions back as they are.
   */
  function WithNewExprs(plan: Plan, exprs: seq<Expr>, inputs: seq<Plan>): Result<Plan> {
    match plan.kind
    case Join(on, _) =>
      var n := |on|;
      if |exprs| < n || |exprs| > n + 1 || exists i | 0 <= i < n :: !exprs[i].EqExpr? then Err
      else Ok(plan.(kind := Join(Pairs(exprs[..n]), if |exprs| == n then None else Some(exprs[n])), inputs := inputs))
    case _ => Ok(plan.(exprs := exprs, inputs := inputs))
  }

  /** Rebuilding with the equalities restored changes nothing but the inputs. */
  lemma RebuildIsExact(plan: Plan, inputs: seq<Plan>)
    ensures WithNewExprs(plan, ExpressionsForRebuild(plan), inputs) == Ok(plan.(inputs := inputs))
  {
    if plan.kind.Join? {
      var on := plan.kind.on;
      var exprs := ExpressionsForRebuild(plan);
      assert exprs[..|on|] == Equalities(on);
      assert Pairs(exprs[..|on|]) == on;
    }
  }

  /** A flattened rebuild fails on an equi-join, save for one key pair whose left key is itself an equality. */
  predicate FlatRebuilds(plan: Plan) {
    plan.kind.Join? && plan.kind.on != [] ==>
      |plan.kind.on| == 1 && plan.kind.filter.None? && plan.kind.on[0].0.EqExpr?
  }

  lemma FlatRebuild(plan: Plan, inputs: seq<Plan>)
    ensures WithNewExprs(plan, Expressions(plan), inputs).Ok? <==> FlatRebuilds(plan)
    ensures (plan.kind.Join? ==> plan.kind.on == []) ==>
              WithNewExprs(plan, Expressions(plan), inputs) == Ok(plan.(inputs := inputs))
  {
    if plan.kind.Join? {
      var n := |plan.kind.on|;
      var exprs := Expressions(plan);
      assert n > 0 ==> exprs[0] == plan.kind.on[0].0;
      if n == 0 {
        assert Pairs(exprs[..0]) == plan.kind.on;
      }
    }
  }

  // ---- paths ----

  type Path = seq<nat>

  predicate Resolves(plan: Plan, p: Path)
    decreases plan
  {
    p == [] || (p[0] < |plan.inputs| && Resolves(plan.inputs[p[0]], p[1..]))
  }

  function NodeAt(plan: Plan, p: Path): Plan
    requires Resolves(plan, p)
    decreases plan
  {
    if p == [] then plan else NodeAt(plan.inputs[p[0]], p[1..])
  }

  /** Whether the node at `p` is the direct child of a result check; `guard` says so for the root. */
  predicate Guarded(plan: Plan, p: Path, guard: bool)
    requires Resolves(plan, p)
    decreases plan
  {
    if p == [] then guard else Guarded(plan.inputs[p[0]], p[1..], plan.kind.ResultCheck?)
  }

  /** Below the root, a node is guarded exactly when its parent is a result check. */
  lemma {:induction false} GuardedMeaning(plan: Plan, p: Path, guard: bool)
    requires Resolves(plan, p)
    ensures p != [] ==> Resolves(plan, p[..|p| - 1])
    ensures Guarded(plan, p, guard) <==> if p == [] then guard else NodeAt(plan, p[..|p| - 1]).kind.ResultCheck?
    decreases plan
  {
    if |p| == 1 {
      assert p[..0] == [];
    } else if p != [] {
      GuardedMeaning(plan.inputs[p[0]], p[1..], plan.kind.ResultCheck?);
      assert p[..|p| - 1][1..] == p[1..][..|p[1..]| - 1];
    }
  }

  /** The paths of `s` that lead into input `i`, relative to it. */
  function Sub(s: set<Path>, i: nat): (r: set<Path>)
    ensures forall q :: q in r <==> [i] + q in s
  {
    var r := set p | p in s && p != [] && p[0] == i :: p[1..];
    assert forall p | p in s && p != [] && p[0] == i :: p == [i] + p[1..];
    assert forall q :: ([i] + q)[1..] == q;
    r
  }

  /** The paths of `s` at or below `base`, relative to it. */
  function Below(s: set<Path>, base: Path): (r: set<Path>)
    ensures forall q :: q in r <==> base + q in s
  {
    var r := set p | p in s && base <= p :: p[|base|..];
    assert forall p | p in s && base <= p :: p == base + p[|base|..];
    assert forall q: Path :: (base + q)[|base|..] == q;
    r
  }

  lemma BelowStep(s: set<Path>, base: Path, i: nat)
    ensures Sub(Below(s, base), i) == Below(s, base + [i])
  {
    forall q: Path ensures q in Sub(Below(s, base), i) <==> q in Below(s, base + [i]) {
      assert base + ([i] + q) == base + [i] + q;
    }
  }

  ghost predicate PrefixFree(s: set<Path>) {
    forall p, q | p in s && q in s && p <= q :: p == q
  }

  lemma PrefixFreeSub(s: set<Path>, i: nat)
    requires PrefixFree(s)
    ensures PrefixFree(Sub(s, i))
  {
    forall p, q | p in Sub(s, i) && q in Sub(s, i) && p <= q ensures p == q {
      assert [i] + p <= [i] + q;
    }
  }

  // ---- walks that consume hints ----

  /** Whether the walk of input `i` consumes the hint at a path relative to it. */
  type Consumes = (nat, Path) -> bool

  /** `p` is consumed in one of the first `k` inputs of the node at `base`. */
  predicate ConsumedInside(base: Path, p: Path, k: nat, consumes: Consumes) {
    && base <= p
    && var q := p[|base|..];
       q != [] && q[0] < k && consumes(q[0], q[1..])
  }

  /** When input `i` is entered, its hints are still all there. */
  lemma InputHints(base: Path, hints: set<Path>, now: set<Path>, i: nat, consumes: Consumes)
    requires forall p :: p in now <==> p in hints && !ConsumedInside(base, p, i, consumes)
    ensures Below(now, base + [i]) == Sub(Below(hints, base), i)
  {
    BelowStep(hints, base, i);
    forall q: Path ensures q in Below(now, base + [i]) <==> q in Below(hints, base + [i]) {
      var p := base + [i] + q;
      assert p[|base|..] == [i] + q;
    }
  }

  lemma InputConsumed(base: Path, hints: set<Path>, before: set<Path>, after: set<Path>, i: nat, consumes: Consumes)
    requires forall p :: p in before <==> p in hints && !ConsumedInside(base, p, i, consumes)
    requires forall p :: p in after <==> p in before && !(base + [i] <= p && consumes(i, p[|base + [i]|..]))
    ensures forall p :: p in after <==> p in hints && !ConsumedInside(base, p, i + 1, consumes)
  {
    forall p: Path ensures p in after <==> p in hints && !ConsumedInside(base, p, i + 1, consumes) {
      if base <= p && p != base {
        var q := p[|base|..];
        assert base + [q[0]] <= p && p[|base + [q[0]]|..] == q[1..];
        if base + [i] <= p {
          assert p[|base|] == i;
        }
      }
    }
  }

  // ---- evaluation ----

  type Row = seq<int>
  type Table = seq<Row>

  /** What each operator computes from its inputs' tables. */
  type Semantics = (Kind, seq<Expr>, seq<Table>) -> Table

  predicate IsWrapper(plan: Plan) {
    plan.kind.Rematerialize? && |plan.inputs| == 1
  }

  /** A wrapper is the identity; an empty relation without the one placeholder row is empty. */
  function Eval(plan: Plan, sem: Semantics): Table
    decreases plan
  {
    if IsWrapper(plan) then Eval(plan.inputs[0], sem)
    else if plan.kind == EmptyRelation(false) then []
    else sem(plan.kind, plan.exprs, EvalAll(plan, sem))
  }

  function EvalAll(plan: Plan, sem: Semantics): (r: seq<Table>)
    ensures |r| == |plan.inputs|
    ensures forall i | 0 <= i < |r| :: r[i] == Eval(plan.inputs[i], sem)
    decreases plan, 0
  {
    seq(|plan.inputs|, i requires 0 <= i < |plan.inputs| => Eval(plan.inputs[i], sem))
  }
}
