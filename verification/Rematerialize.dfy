/** Rematerialize hints: choosing the nodes to wrap, and replaying the choice on the verifier's plan. */
module Rematerialize {
  import opened Results
  import opened PlanTree

  // ---- wrapping ----

  function Wrap(plan: Plan): (r: Plan)
    ensures IsWrapper(r) && r.inputs == [plan] && r.schema == plan.schema && r.exprs == []
  {
    Plan(Kind.Rematerialize, [], plan.schema, [plan])
  }

  predicate Supports(plan: Plan) {
    plan.kind.Filter? || plan.kind.Aggregate?
  }

  /** The plan with every hinted, unguarded node wrapped; the paths of `s` refer to the original plan. */
  function Wrapped(plan: Plan, s: set<Path>, guard: bool): Plan
    decreases plan
  {
    var inner := plan.(inputs := WrappedInputs(plan, s));
    if [] in s && !guard then Wrap(inner) else inner
  }

  function WrappedInputs(plan: Plan, s: set<Path>): (r: seq<Plan>)
    ensures |r| == |plan.inputs|
    ensures forall i | 0 <= i < |r| :: r[i] == Wrapped(plan.inputs[i], Sub(s, i), plan.kind.ResultCheck?)
    decreases plan, 0
  {
    seq(|plan.inputs|, i requires 0 <= i < |plan.inputs| => Wrapped(plan.inputs[i], Sub(s, i), plan.kind.ResultCheck?))
  }

  /** A hint can be honoured at `p`: the node may be wrapped, or the guard turns the hint into a no-op. */
  predicate Targetable(plan: Plan, p: Path, guard: bool)
    requires Resolves(plan, p)
  {
    Guarded(plan, p, guard) || Supports(NodeAt(plan, p))
  }

  // ---- replay ----

  /** The walk of an input consumes the hints that resolve in it. */
  function Resolving(plan: Plan): Consumes {
    (i: nat, q: Path) => i < |plan.inputs| && Resolves(plan.inputs[i], q)
  }

  /** The verifier's walk: the path to the current node, and the hints not met yet. */
  class Replay {
    var path: Path
    var remaining: set<Path>

    constructor (hints: set<Path>)
      ensures path == [] && remaining == hints
    {
      path, remaining := [], hints;
    }

    /** One node: take its hint, rewrite its inputs first, rebuild it, then wrap it if it was hinted and may be. */
    method ApplyWithGuard(plan: Plan, parentIsResultCheck: bool) returns (r: Result<Plan>)
      modifies this
      ensures path == old(path)
      ensures r.Ok? <==> TargetsBelow(plan, Below(old(remaining), path), parentIsResultCheck)
      ensures r.Ok? ==> r.value == Wrapped(plan, Below(old(remaining), path), parentIsResultCheck)
      ensures r.Ok? ==> forall p :: p in remaining <==>
                          p in old(remaining) && !(path <= p && Resolves(plan, p[|path|..]))
      decreases plan, 1
    {
      hide WithNewExprs, ExpressionsForRebuild, Below;
      ghost var hints := Below(remaining, path);
      var wasHit := path in remaining;
      remaining := remaining - {path};
      OwnHint(plan, old(remaining), path, parentIsResultCheck);
      var inputs := RewriteInputs(plan);
      if inputs.Err? {
        return Err;
      }
      RebuildIsExact(plan, inputs.value);
      var rewritten := WithNewExprs(plan, ExpressionsForRebuild(plan), inputs.value);
      if rewritten.Err? {
        return Err;
      }
      if wasHit {
        if parentIsResultCheck {
          return Ok(rewritten.value);
        }
        if !Supports(rewritten.value) {
          return Err;
        }
        r := Ok(Wrap(rewritten.value));
      } else {
        r := Ok(rewritten.value);
      }
    }

    /** The inputs in order, with the path extended while each is rewritten. */
    method RewriteInputs(plan: Plan) returns (r: Result<seq<Plan>>)
      modifies this
      requires path !in remaining
      ensures path == old(path)
      ensures r.Ok? <==> TargetsInside(plan, Below(old(remaining), path), |plan.inputs|)
      ensures r.Ok? ==> r.value == WrappedInputs(plan, Below(old(remaining), path))
      ensures r.Ok? ==> forall p :: p in remaining <==>
                          p in old(remaining) && !(path <= p && Resolves(plan, p[|path|..]))
      decreases plan, 0
    {
      hide Below, Wrapped, TargetsBelow;
      ghost var hints := Below(remaining, path);
      var children := [];
      assert forall p: Path | path <= p && p[|path|..] == [] :: p == path;
      for i := 0 to |plan.inputs|
        invariant path == old(path) && |children| == i
        invariant forall p :: p in remaining <==> p in old(remaining) && !ConsumedInside(path, p, i, Resolving(plan))
        invariant forall k | 0 <= k < i :: children[k] == Wrapped(plan.inputs[k], Sub(hints, k), plan.kind.ResultCheck?)
        invariant TargetsInside(plan, hints, i)
      {
        ghost var before := remaining;
        path := path + [i];
        InputHints(old(path), old(remaining), before, i, Resolving(plan));
        InputTargets(plan, hints, i);
        var rewritten := ApplyWithGuard(plan.inputs[i], plan.kind.ResultCheck?);
        path := path[..|path| - 1];
        if rewritten.Err? {
          return Err;
        }
        children := children + [rewritten.value];
        InputConsumed(old(path), old(remaining), before, remaining, i, Resolving(plan));
      }
      r := Ok(children);
    }
  }

  /** Every hint that resolves in the plan can be honoured. */
  predicate TargetsBelow(plan: Plan, s: set<Path>, guard: bool) {
    forall q | q in s && Resolves(plan, q) :: Targetable(plan, q, guard)
  }

  /** The same for the hints that lead into one of the first `k` inputs. */
  predicate TargetsInside(plan: Plan, s: set<Path>, k: nat) {
    forall i | 0 <= i < k && i < |plan.inputs| :: TargetsBelow(plan.inputs[i], Sub(s, i), plan.kind.ResultCheck?)
  }

  /** Removing the node's own hint leaves its inputs' hints alone; what is left to check is the node itself. */
  lemma OwnHint(plan: Plan, hints: set<Path>, base: Path, guard: bool)
    ensures var all, rest := Below(hints, base), Below(hints - {base}, base);
            && (base in hints <==> [] in all)
            && WrappedInputs(plan, rest) == WrappedInputs(plan, all)
            && (TargetsBelow(plan, all, guard) <==>
                  (base in hints && !guard ==> Supports(plan)) && TargetsInside(plan, rest, |plan.inputs|))
  {
    var all, rest := Below(hints, base), Below(hints - {base}, base);
    assert base + [] == base;
    forall i: nat ensures Sub(rest, i) == Sub(all, i) {
      forall q: Path ensures q in Sub(rest, i) <==> q in Sub(all, i) {
        assert base + ([i] + q) != base by {
          assert |base + ([i] + q)| > |base|;
        }
      }
    }
    if TargetsBelow(plan, all, guard) {
      forall i, q | 0 <= i < |plan.inputs| && q in Sub(rest, i) && Resolves(plan.inputs[i], q)
        ensures Targetable(plan.inputs[i], q, plan.kind.ResultCheck?)
      {
        assert ([i] + q)[1..] == q;
        assert [i] + q in all;
      }
    }
    if (base in hints && !guard ==> Supports(plan)) && TargetsInside(plan, rest, |plan.inputs|) {
      forall q | q in all && Resolves(plan, q) ensures Targetable(plan, q, guard) {
        if q != [] {
          assert q == [q[0]] + q[1..];
          assert q[1..] in Sub(rest, q[0]);
        }
      }
    }
  }

  lemma InputTargets(plan: Plan, s: set<Path>, i: nat)
    requires i < |plan.inputs|
    ensures TargetsInside(plan, s, i + 1)
       <==> TargetsInside(plan, s, i) && TargetsBelow(plan.inputs[i], Sub(s, i), plan.kind.ResultCheck?)
    ensures TargetsInside(plan, s, |plan.inputs|) ==> TargetsInside(plan, s, i + 1)
  {
  }

  /** Every hint of the set can be honoured somewhere in the plan. */
  predicate Replayable(plan: Plan, s: set<Path>) {
    forall p | p in s :: Resolves(plan, p) && Targetable(plan, p, false)
  }

  /** The whole replay, with the check that no hint is left over. */
  method ApplyRematerializeHints(plan: Plan, hints: set<Path>) returns (r: Result<Plan>)
    ensures r == if Replayable(plan, hints) then Ok(Wrapped(plan, hints, false)) else Err
    ensures r.Ok? <==> forall p | p in hints ::
              && Resolves(plan, p)
              && (Guarded(plan, p, false) || NodeAt(plan, p).kind.Filter? || NodeAt(plan, p).kind.Aggregate?)
  {
    var replay := new Replay(hints);
    assert forall p: Path :: [] + p == p && p[0..] == p;
    assert Below(hints, []) == hints;
    var rewritten := replay.ApplyWithGuard(plan, false);
    if rewritten.Err? || replay.remaining != {} {
      return Err;
    }
    r := rewritten;
  }
}
