/** Shipping hints with a proof: collecting them by a list of rules, and replaying both kinds in two phases. */
module OptimizationHints {
  import opened Options
  import opened Results
  import opened PlanTree
  import opened Rematerialize
  import opened Wrappers
  import opened CollectHints
  import opened Truncate

  datatype Hint = RematerializeHint(targetPath: Path) | TruncateHint(targetPath: Path)

  function HintOf(rule: Rule, p: Path): Hint {
    match rule case RematerializeRule => RematerializeHint(p) case TruncateEmptyPayloadRule => TruncateHint(p)
  }

  function HintsOf(rule: Rule, ps: seq<Path>): (r: seq<Hint>)
    ensures |r| == |ps| && forall i | 0 <= i < |ps| :: r[i] == HintOf(rule, ps[i])
  {
    seq(|ps|, i requires 0 <= i < |ps| => HintOf(rule, ps[i]))
  }

  // ---- collecting ----

  function AllCollected(rules: seq<Rule>, session: Session, plan: Plan): Option<seq<Hint>> {
    if rules == [] then Some([])
    else match AllCollected(rules[..|rules| - 1], session, plan)
         case None => None
         case Some(before) =>
           match Collected(rules[|rules| - 1], session, plan, false)
           case None => None
           case Some(ps) => Some(before + HintsOf(rules[|rules| - 1], ps))
  }

  method CollectHintsOfRules(rules: seq<Rule>, session: Session, plan: Plan) returns (r: Option<seq<Hint>>)
    ensures r == AllCollected(rules, session, plan)
  {
    hide Collected;
    var hints: seq<Hint> := [];
    for i := 0 to |rules|
      invariant AllCollected(rules[..i], session, plan) == Some(hints)
    {
      var collector := new Collector();
      var ok := collector.Collect(rules[i], session, plan, false);
      assert rules[..i + 1][..i] == rules[..i];
      if !ok {
        CollectionFails(rules, session, plan, i);
        return None;
      }
      assert forall p: Path :: [] + p == p;
      assert collector.hints == Collected(rules[i], session, plan, false).value;
      hints := hints + HintsOf(rules[i], collector.hints);
    }
    assert rules[..|rules|] == rules;
    r := Some(hints);
  }

  lemma {:induction false} CollectionFails(rules: seq<Rule>, session: Session, plan: Plan, i: nat)
    requires i < |rules| && Collected(rules[i], session, plan, false).None?
    ensures AllCollected(rules, session, plan).None?
  {
    if i < |rules| - 1 {
      CollectionFails(rules[..|rules| - 1], session, plan, i);
    }
  }

  // ---- replaying ----

  function RematerializePaths(hints: seq<Hint>): set<Path> {
    set h | h in hints && h.RematerializeHint? :: h.targetPath
  }

  function TruncatePaths(hints: seq<Hint>): set<Path> {
    set h | h in hints && h.TruncateHint? :: h.targetPath
  }

  /** Truncation first, if there is any; rematerialize hints are then judged against the truncated plan. */
  function Applied(plan: Plan, hints: seq<Hint>): Result<Plan> {
    var truncates, remats := TruncatePaths(hints), RematerializePaths(hints);
    var first := if truncates == {} then Ok(plan)
                 else if AllMet(plan, truncates) then Truncated(plan, truncates) else Err;
    if first.Err? || remats == {} then first
    else if Replayable(first.value, remats) then Ok(Wrapped(first.value, remats, false))
    else Err
  }

  method ApplyOptimizationHints(plan: Plan, hints: seq<Hint>) returns (r: Result<Plan>)
    ensures r == Applied(plan, hints)
  {
    hide AllMet, Replayable, Truncated, Wrapped;
    if |hints| == 0 {
      return Ok(plan);
    }
    var remats: set<Path> := {};
    var truncates: set<Path> := {};
    for i := 0 to |hints|
      invariant remats == RematerializePaths(hints[..i])
      invariant truncates == TruncatePaths(hints[..i])
    {
      assert hints[..i + 1] == hints[..i] + [hints[i]];
      match hints[i] {
        case RematerializeHint(p) => remats := remats + {p};
        case TruncateHint(p) => truncates := truncates + {p};
      }
    }
    assert hints[..|hints|] == hints;
    var current := plan;
    if truncates != {} {
      var rewritten := ApplyAllTruncateHints(plan, truncates);
      if rewritten.Err? {
        return Err;
      }
      current := rewritten.value;
    }
    if remats == {} {
      return Ok(current);
    }
    r := ApplyRematerializeHints(current, remats);
  }

  /** Replay succeeds exactly when both hint kinds can be honoured, the second kind on the truncated plan. */
  lemma ReplaySucceeds(plan: Plan, hints: seq<Hint>)
    ensures Applied(plan, hints).Ok? <==>
              var truncates, remats := TruncatePaths(hints), RematerializePaths(hints);
              && (truncates != {} ==>
                    && PrefixFree(truncates) && (forall p | p in truncates :: Resolves(plan, p))
                    && SpineRebuilds(plan, truncates))
              && (remats != {} ==>
                    var first := if truncates == {} then Ok(plan) else Truncated(plan, truncates);
                    first.Ok? && Replayable(first.value, remats))
  {
    hide AllMet, PrefixFree, SpineRebuilds, Replayable, Truncated, Wrapped;
    TruncateReplay(plan, TruncatePaths(hints));
  }

  // ---- the default rule list ----

  lemma SameHints(ps: seq<Path>)
    ensures RematerializePaths(HintsOf(RematerializeRule, ps)) == HintSet(ps)
    ensures TruncatePaths(HintsOf(RematerializeRule, ps)) == {}
    ensures TruncatePaths(HintsOf(TruncateEmptyPayloadRule, ps)) == HintSet(ps)
    ensures RematerializePaths(HintsOf(TruncateEmptyPayloadRule, ps)) == {}
  {
    var hs, ts := HintsOf(RematerializeRule, ps), HintsOf(TruncateEmptyPayloadRule, ps);
    forall p | p in ps
      ensures p in RematerializePaths(hs) && p in TruncatePaths(ts)
    {
      var i :| 0 <= i < |ps| && ps[i] == p;
      assert hs[i] in hs && ts[i] in ts && hs[i].targetPath == p && ts[i].targetPath == p;
    }
  }

  /**
   * What the default optimizer collects always replays; every hint becomes a wrapper at its path, the rows are the
   * same, and stripping gives the plan back.
   */
  lemma DefaultRulesReplay(session: Session, plan: Plan, hints: seq<Hint>)
    requires AllCollected([RematerializeRule], session, plan) == Some(hints)
    ensures Applied(plan, hints).Ok?
    ensures var result := Applied(plan, hints).value;
            && Eval(result, session.sem) == Eval(plan, session.sem)
            && (forall p | p in RematerializePaths(hints) ::
                  Resolves(plan, p) && Resolves(result, p) && NodeAt(result, p) == Wrap(NodeAt(plan, p)))
            && (WrapperFree(plan) ==> Strip(result) == plan && NoAdjacentWrappers(result))
  {
    hide Collected, Eval, Strip, NodeAt, NoAdjacentWrappers, WrapperFree, Wrapped;
    var ps := Collected(RematerializeRule, session, plan, false).value;
    var rules := [RematerializeRule];
    assert rules[..0] == [] && AllCollected(rules[..0], session, plan) == Some([]);
    assert hints == HintsOf(RematerializeRule, ps);
    SameHints(ps);
    var s := HintSet(ps);
    CollectedShape(RematerializeRule, session, plan);
    CollectedReplays(session, plan);
    WrappedNothing(plan, false);
    assert Applied(plan, hints) == Ok(Wrapped(plan, s, false));
    WrappedEval(plan, s, false, session.sem);
    forall p | p in s ensures
      && Resolves(plan, p) && Resolves(Wrapped(plan, s, false), p)
      && NodeAt(Wrapped(plan, s, false), p) == Wrap(NodeAt(plan, p))
    {
      PickedTarget(session, plan, p);
      HintBecomesWrapper(plan, s, p, false);
    }
    if WrapperFree(plan) {
      StripUndoes(plan, s, false);
      WrappedNoAdjacent(plan, s, false);
    }
  }

  // ---- both rules together ----

  /** Outside the cuts the truncated plan has the same nodes at the same paths. */
  lemma {:induction false} CutKeeps(plan: Plan, s: set<Path>, p: Path, guard: bool)
    requires Resolves(plan, p) && forall q | q in s :: !(q <= p)
    ensures Resolves(Cut(plan, s), p)
    ensures NodeAt(Cut(plan, s), p).(inputs := NodeAt(plan, p).inputs) == NodeAt(plan, p)
    ensures |NodeAt(Cut(plan, s), p).inputs| == |NodeAt(plan, p).inputs|
    ensures Guarded(Cut(plan, s), p, guard) == Guarded(plan, p, guard)
    decreases plan
  {
    EmptyPrefix(p);
    if p != [] {
      forall q | q in Sub(s, p[0]) ensures !(q <= p[1..]) {
        PrefixUnderInput(p[0], q, p);
      }
      CutKeeps(plan.inputs[p[0]], Sub(s, p[0]), p[1..], plan.kind.ResultCheck?);
    }
  }

  /** At a cut the truncated plan ends in an empty relation. */
  lemma {:induction false} CutEnds(plan: Plan, s: set<Path>, q: Path, p: Path)
    requires Met(plan, s, q) && q <= p && Resolves(Cut(plan, s), p)
    ensures p == q && !Supports(NodeAt(Cut(plan, s), p))
    decreases plan
  {
    if q != [] {
      PrefixUnderInput(p[0], q[1..], p);
      assert q == [q[0]] + q[1..] && p == [p[0]] + p[1..];
      CutEnds(plan.inputs[q[0]], Sub(s, q[0]), q[1..], p[1..]);
    }
  }

  /** At a hint the truncated plan has an empty relation without rows, of the schema that was there. */
  lemma {:induction false} CutAt(plan: Plan, s: set<Path>, q: Path)
    requires Met(plan, s, q)
    ensures Resolves(plan, q) && Resolves(Cut(plan, s), q)
    ensures NodeAt(Cut(plan, s), q) == Plan(EmptyRelation(false), [], NodeAt(plan, q).schema, [])
    decreases plan
  {
    if q != [] {
      CutAt(plan.inputs[q[0]], Sub(s, q[0]), q[1..]);
    }
  }

  /** What a successful replay returns: the plan, cut if anything is truncated, with its rematerialize hints wrapped. */
  lemma AppliedResult(plan: Plan, hints: seq<Hint>)
    requires Applied(plan, hints).Ok?
    requires TruncatePaths(hints) == {} || NoEquiJoinOnSpine(plan, TruncatePaths(hints))
    ensures var r, t, result := RematerializePaths(hints), TruncatePaths(hints), Applied(plan, hints).value;
            var cut := if t == {} then plan else Cut(plan, t);
            && result == Wrapped(cut, r, false)
            && (PrefixFree(r) ==> forall p | p in r ::
                  && Resolves(cut, p)
                  && (!Guarded(cut, p, false) ==> Resolves(result, p) && NodeAt(result, p) == Wrap(NodeAt(cut, p))))
  {
    hide Truncated, Wrapped, Cut, AllMet, NoEquiJoinOnSpine, Resolves, Guarded, NodeAt, Targetable;
    var r, t := RematerializePaths(hints), TruncatePaths(hints);
    var cut := if t == {} then plan else Cut(plan, t);
    if t != {} {
      TruncatedIsCut(plan, t);
    }
    WrappedNothing(cut, false);
    if PrefixFree(r) {
      forall p | p in r && !Guarded(cut, p, false)
        ensures Resolves(Wrapped(cut, r, false), p) && NodeAt(Wrapped(cut, r, false), p) == Wrap(NodeAt(cut, p))
      {
        HintBecomesWrapper(cut, r, p, false);
      }
    }
  }

  lemma {:induction false} CutGuard(plan: Plan, s: set<Path>, q: Path, guard: bool)
    requires Met(plan, s, q)
    ensures Resolves(plan, q) && Resolves(Cut(plan, s), q)
    ensures Guarded(Cut(plan, s), q, guard) == Guarded(plan, q, guard)
    decreases plan
  {
    if q != [] {
      CutGuard(plan.inputs[q[0]], Sub(s, q[0]), q[1..], plan.kind.ResultCheck?);
    }
  }

  /** A node picked for wrapping stays a target exactly when truncation leaves it alone. */
  lemma TargetAfterCut(session: Session, plan: Plan, s: set<Path>, p: Path)
    requires AllMet(plan, s) && Resolves(plan, p) && VisitsAs(RematerializeRule, session, plan, p, false, Some(Pick))
    ensures (Resolves(Cut(plan, s), p) && Targetable(Cut(plan, s), p, false)) <==> forall q | q in s :: !(q <= p)
  {
    PickedTarget(session, plan, p);
    if forall q | q in s :: !(q <= p) {
      CutKeeps(plan, s, p, false);
    } else {
      var q :| q in s && q <= p;
      if Resolves(Cut(plan, s), p) {
        CutEnds(plan, s, q, p);
        CutGuard(plan, s, q, false);
      }
    }
  }

  /** Plans of one shape have the same paths, guards and nodes that can be wrapped. */
  lemma {:induction false} ShapeTargets(a: Plan, b: Plan, p: Path, guard: bool)
    requires SameShape(a, b)
    ensures Resolves(a, p) <==> Resolves(b, p)
    ensures Resolves(a, p) ==> (Targetable(a, p, guard) <==> Targetable(b, p, guard))
    decreases a
  {
    if p != [] && p[0] < |a.inputs| {
      ShapeTargets(a.inputs[p[0]], b.inputs[p[0]], p[1..], a.kind.ResultCheck?);
    }
  }

  lemma ShapeReplayable(a: Plan, b: Plan, s: set<Path>)
    requires SameShape(a, b)
    ensures Replayable(a, s) <==> Replayable(b, s)
  {
    hide SameShape, Resolves, Targetable;
    forall p: Path
      ensures Resolves(a, p) <==> Resolves(b, p)
      ensures Resolves(a, p) ==> (Targetable(a, p, false) <==> Targetable(b, p, false))
    {
      ShapeTargets(a, b, p, false);
    }
  }

  /**
   * With both rules on, replaying what was collected succeeds exactly when nothing is truncated, or every node that is
   * kept can be rebuilt and no node chosen for wrapping lies in, or is, a subtree chosen for truncation: the truncation
   * does not drop the hints it makes pointless.
   */
  lemma BothRulesReplay(session: Session, plan: Plan, hints: seq<Hint>)
    requires AllCollected([RematerializeRule, TruncateEmptyPayloadRule], session, plan) == Some(hints)
    ensures var r, t := RematerializePaths(hints), TruncatePaths(hints);
            && (Applied(plan, hints).Ok? <==> t == {} || (SpineRebuilds(plan, t) && NoneBelow(r, t)))
            && (Applied(plan, hints).Ok? && (t == {} || NoEquiJoinOnSpine(plan, t)) ==>
                  Eval(Applied(plan, hints).value, session.sem) == Eval(plan, session.sem))
  {
    hide Collected, Eval, Wrapped, Truncated, Cut, AllMet, Resolves, NoEquiJoinOnSpine, SpineRebuilds, VisitsAs,
         PrefixFree, HintSet, SameShape, NoneBelow, Replayable;
    var ps := Collected(RematerializeRule, session, plan, false).value;
    var qs := Collected(TruncateEmptyPayloadRule, session, plan, false).value;
    BothCollected(session, plan);
    assert hints == HintsOf(RematerializeRule, ps) + HintsOf(TruncateEmptyPayloadRule, qs);
    PathsAppend(HintsOf(RematerializeRule, ps), HintsOf(TruncateEmptyPayloadRule, qs));
    SameHints(ps);
    SameHints(qs);
    var r, t := HintSet(ps), HintSet(qs);
    assert TruncatePaths(hints) == t && RematerializePaths(hints) == r;
    CollectedReplays(session, plan);
    CollectedTruncateReplay(session, plan);
    CollectedShape(RematerializeRule, session, plan);
    ReplayableAfterCut(session, plan, r, t);
    NothingToReplay(Cut(plan, t), r);
    if Truncated(plan, t).Ok? {
      TruncatedShape(plan, t);
      ShapeReplayable(Truncated(plan, t).value, Cut(plan, t), r);
    }
    WrappedEval(plan, r, false, session.sem);
    WrappedEval(Cut(plan, t), r, false, session.sem);
  }

  lemma NothingToReplay(plan: Plan, s: set<Path>)
    ensures s == {} ==> Replayable(plan, s)
  {
  }

  /** With the truncate rule alone, replay succeeds exactly when nothing is cut or every kept node can be rebuilt. */
  lemma TruncateRuleReplay(session: Session, plan: Plan, hints: seq<Hint>)
    requires AllCollected([TruncateEmptyPayloadRule], session, plan) == Some(hints)
    ensures var t := TruncatePaths(hints);
            && (Applied(plan, hints).Ok? <==> t == {} || SpineRebuilds(plan, t))
            && (t == {} || NoEquiJoinOnSpine(plan, t) ==>
                  && Applied(plan, hints).Ok?
                  && Eval(Applied(plan, hints).value, session.sem) == Eval(plan, session.sem)
                  && Applied(plan, hints).value.schema == plan.schema)
  {
    hide Collected, Eval, Truncated, Cut, AllMet, NoEquiJoinOnSpine, SpineRebuilds, HintSet;
    var rules := [TruncateEmptyPayloadRule];
    var qs := Collected(TruncateEmptyPayloadRule, session, plan, false).value;
    assert rules[..0] == [] && AllCollected(rules[..0], session, plan) == Some([]);
    assert hints == HintsOf(TruncateEmptyPayloadRule, qs);
    SameHints(qs);
    CollectedTruncateReplay(session, plan);
  }

  /** No hint of `s` lies at or below a hint of `t`. */
  ghost predicate NoneBelow(s: set<Path>, t: set<Path>) {
    forall p, q | p in s && q in t :: !(q <= p)
  }

  lemma ReplayableAfterCut(session: Session, plan: Plan, r: set<Path>, t: set<Path>)
    requires AllMet(plan, t)
    requires forall p | p in r :: Resolves(plan, p) && VisitsAs(RematerializeRule, session, plan, p, false, Some(Pick))
    ensures Replayable(Cut(plan, t), r) <==> NoneBelow(r, t)
  {
    hide Cut, AllMet, VisitsAs, Resolves, Targetable;
    forall p | p in r
      ensures (Resolves(Cut(plan, t), p) && Targetable(Cut(plan, t), p, false)) <==> forall q | q in t :: !(q <= p)
    {
      TargetAfterCut(session, plan, t, p);
    }
  }

  lemma BothCollected(session: Session, plan: Plan)
    ensures var all := AllCollected([RematerializeRule, TruncateEmptyPayloadRule], session, plan);
            var ps := Collected(RematerializeRule, session, plan, false);
            var qs := Collected(TruncateEmptyPayloadRule, session, plan, false);
            all == if ps.None? || qs.None? then None
                   else Some(HintsOf(RematerializeRule, ps.value) + HintsOf(TruncateEmptyPayloadRule, qs.value))
  {
    hide Collected;
    var rules, one := [RematerializeRule, TruncateEmptyPayloadRule], [RematerializeRule];
    var ps := Collected(RematerializeRule, session, plan, false);
    assert rules[..1] == one && one[..0] == [];
    assert AllCollected(one[..0], session, plan) == Some([]);
    assert ps.Some? ==> [] + HintsOf(RematerializeRule, ps.value) == HintsOf(RematerializeRule, ps.value);
    assert AllCollected(rules[..1], session, plan)
        == if ps.None? then None else Some(HintsOf(RematerializeRule, ps.value));
  }

  lemma PathsAppend(xs: seq<Hint>, ys: seq<Hint>)
    ensures RematerializePaths(xs + ys) == RematerializePaths(xs) + RematerializePaths(ys)
    ensures TruncatePaths(xs + ys) == TruncatePaths(xs) + TruncatePaths(ys)
  {
  }

  /** Filters drop every row; any other operator produces one. */
  function KeepsNothing(): Session {
    Session((kind: Kind, exprs: seq<Expr>, tables: seq<Table>) => if kind.Filter? then [] else [[1]], p => false)
  }

  /** A filter that keeps none of its rows is picked by both rules, and then the collected hints do not replay. */
  lemma BothRulesCanFail(schema: Schema)
    ensures var scan := Plan(Other("scan"), [], schema, []);
            var plan := Plan(Filter, [], schema, [scan]);
            var session := KeepsNothing();
            var hints := [RematerializeHint([]), TruncateHint([])];
            AllCollected([RematerializeRule, TruncateEmptyPayloadRule], session, plan) == Some(hints)
            && Applied(plan, hints).Err?
  {
    var scan := Plan(Other("scan"), [], schema, []);
    var plan := Plan(Filter, [], schema, [scan]);
    var hints := [RematerializeHint([]), TruncateHint([])];
    FilterCollects(scan, plan);
    BothCollected(KeepsNothing(), plan);
    OwnPath([]);
    assert HintsOf(RematerializeRule, [[]]) + HintsOf(TruncateEmptyPayloadRule, [[]]) == hints;
    assert [] in RematerializePaths(hints) by { assert hints[0] in hints; }
    assert [] in TruncatePaths(hints) by { assert hints[1] in hints; }
    EmptyPrefix([]);
    hide Collected, Applied, AllCollected;
    BothRulesReplay(KeepsNothing(), plan, hints);
  }

  lemma FilterCollects(scan: Plan, plan: Plan)
    requires scan.kind == Other("scan") && scan.inputs == [] && plan.kind.Filter? && plan.inputs == [scan]
    ensures Collected(RematerializeRule, KeepsNothing(), plan, false) == Some([[]])
    ensures Collected(TruncateEmptyPayloadRule, KeepsNothing(), plan, false) == Some([[]])
  {
    var session := KeepsNothing();
    assert Strip(scan) == scan;
    assert Strip(plan).inputs == [scan];
    assert Strip(plan) == plan;
    assert RowCount(session, plan) == Some(0) && RowCount(session, scan) == Some(1);
    assert ShouldRematerialize(session, plan) == Some(true);
  }

  /** The input named "empty" has no rows; any other operator produces one. */
  function EmptyInput(): Session {
    Session((kind: Kind, exprs: seq<Expr>, tables: seq<Table>) => if kind == Other("empty") then [] else [[1]],
            p => false)
  }

  /** A join with rows and an empty input: no node is chosen for wrapping, yet it cannot be rebuilt around the cut. */
  lemma EquiJoinCanFail(schema: Schema)
    ensures var left, right := Plan(Other("empty"), [], schema, []), Plan(Other("scan"), [], schema, []);
            var plan := Plan(Join([(OtherExpr("a"), OtherExpr("b"))], None), [], schema, [left, right]);
            && AllCollected([RematerializeRule, TruncateEmptyPayloadRule], EmptyInput(), plan)
               == Some([TruncateHint([0])])
            && NoneBelow({}, {[0]}) && Applied(plan, [TruncateHint([0])]).Err?
  {
    var left, right := Plan(Other("empty"), [], schema, []), Plan(Other("scan"), [], schema, []);
    var plan := Plan(Join([(OtherExpr("a"), OtherExpr("b"))], None), [], schema, [left, right]);
    var hints := [TruncateHint([0])];
    EquiJoinCollects(left, right, plan);
    BothCollected(EmptyInput(), plan);
    assert HintsOf(RematerializeRule, []) + HintsOf(TruncateEmptyPayloadRule, [[0]]) == hints;
    assert TruncatePaths(hints) == {[0]} by { assert hints[0] in hints; }
    hide Collected, Applied, AllCollected;
    BothRulesReplay(EmptyInput(), plan, hints);
    assert [] !in TruncatePaths(hints) && !FlatRebuilds(plan);
  }

  lemma EquiJoinCollects(left: Plan, right: Plan, plan: Plan)
    requires left.kind == Other("empty") && right.kind == Other("scan") && left.inputs == right.inputs == []
    requires plan.kind.Join? && plan.inputs == [left, right]
    ensures Collected(RematerializeRule, EmptyInput(), plan, false) == Some([])
    ensures Collected(TruncateEmptyPayloadRule, EmptyInput(), plan, false) == Some([[0]])
  {
    hide Collected;
    assert Strip(left) == left && Strip(right) == right;
    assert RowCount(EmptyInput(), left) == Some(0) && RowCount(EmptyInput(), right) == Some(1);
    assert RowCount(EmptyInput(), plan) == Some(1);
    NothingCollected(EmptyInput(), plan);
    OneCollected(EmptyInput(), plan);
  }

  lemma TwoInputs(rule: Rule, session: Session, plan: Plan, ps: seq<Path>, qs: seq<Path>)
    requires |plan.inputs| == 2
    requires Collected(rule, session, plan.inputs[0], plan.kind.ResultCheck?) == Some(ps)
    requires Collected(rule, session, plan.inputs[1], plan.kind.ResultCheck?) == Some(qs)
    ensures CollectedInputs(rule, session, plan, |plan.inputs|) == Some(Rebased(ps, [0]) + Rebased(qs, [1]))
  {
    hide Collected, Rebased;
    var none: seq<Path> := [];
    var k: nat := |plan.inputs| - 1;
    assert CollectedInputs(rule, session, plan, k - 1) == Some(none);
    assert CollectedInputs(rule, session, plan, k) == Some(none + Rebased(ps, [k - 1]));
    assert none + Rebased(ps, [0]) == Rebased(ps, [0]);
  }

  lemma NothingCollected(session: Session, plan: Plan)
    requires |plan.inputs| == 2 && !Supports(plan) && forall c | c in plan.inputs :: !Supports(c) && c.inputs == []
    ensures Collected(RematerializeRule, session, plan, false) == Some([])
  {
    assert plan.inputs[0] in plan.inputs && plan.inputs[1] in plan.inputs;
    var none: seq<Path> := [];
    TwoInputs(RematerializeRule, session, plan, none, none);
    assert Rebased(none, [0]) + Rebased(none, [1]) == none;
    assert VisitOf(RematerializeRule, session, plan, false) == Some(Descend);
  }

  lemma OneCollected(session: Session, plan: Plan)
    requires |plan.inputs| == 2 && !plan.kind.EmptyRelation? && RowCount(session, plan) == Some(1)
    requires RowCount(session, plan.inputs[0]) == Some(0) && RowCount(session, plan.inputs[1]) == Some(1)
    requires forall c | c in plan.inputs :: !c.kind.EmptyRelation? && c.inputs == []
    ensures Collected(TruncateEmptyPayloadRule, session, plan, false) == Some([[0]])
  {
    assert plan.inputs[0] in plan.inputs && plan.inputs[1] in plan.inputs;
    var none: seq<Path> := [];
    OwnPath([0]);
    TwoInputs(TruncateEmptyPayloadRule, session, plan, [[]], none);
    assert Rebased([[]], [0]) + Rebased(none, [1]) == [[0]];
    assert VisitOf(TruncateEmptyPayloadRule, session, plan, false) == Some(Descend);
  }
}
