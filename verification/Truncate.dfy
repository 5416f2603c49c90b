/** Truncate hints: replacing empty subtrees by empty relations, and replaying that on the verifier's plan. */
module Truncate {
  import opened Options
  import opened Results
  import opened PlanTree
  import opened Wrappers
  import opened CollectHints

  function EmptyOf(plan: Plan): Plan {
    Plan(EmptyRelation(false), [], plan.schema, [])
  }

  /** The plan with the topmost hinted subtrees emptied and everything else kept. */
  function Cut(plan: Plan, s: set<Path>): Plan
    decreases plan
  {
    if [] in s then EmptyOf(plan) else plan.(inputs := CutInputs(plan, s))
  }

  function CutInputs(plan: Plan, s: set<Path>): (r: seq<Plan>)
    ensures |r| == |plan.inputs| && forall i | 0 <= i < |r| :: r[i] == Cut(plan.inputs[i], Sub(s, i))
    decreases plan, 0
  {
    seq(|plan.inputs|, i requires 0 <= i < |plan.inputs| => Cut(plan.inputs[i], Sub(s, i)))
  }

  /** What the walk builds: kept nodes are rebuilt from their flattened expressions, which can fail. */
  function Truncated(plan: Plan, s: set<Path>): Result<Plan>
    decreases plan
  {
    if [] in s then Ok(EmptyOf(plan))
    else match TruncatedInputs(plan, s, |plan.inputs|)
         case Err => Err
         case Ok(inputs) => WithNewExprs(plan, Expressions(plan), inputs)
  }

  function TruncatedInputs(plan: Plan, s: set<Path>, k: nat): (r: Result<seq<Plan>>)
    requires k <= |plan.inputs|
    ensures r.Ok? ==> |r.value| == k
    decreases plan, 0, k
  {
    if k == 0 then Ok([])
    else match TruncatedInputs(plan, s, k - 1)
         case Err => Err
         case Ok(before) =>
           match Truncated(plan.inputs[k - 1], Sub(s, k - 1))
           case Err => Err
           case Ok(input) => Ok(before + [input])
  }

  /** The walk meets the hint `q`: it resolves, and no hint above it stops the walk. */
  predicate Met(plan: Plan, s: set<Path>, q: Path)
    decreases plan
  {
    if q == [] then [] in s
    else [] !in s && q[0] < |plan.inputs| && Met(plan.inputs[q[0]], Sub(s, q[0]), q[1..])
  }

  /** The walk of an input consumes the hints it meets. */
  function Meeting(plan: Plan, s: set<Path>): Consumes {
    (i: nat, q: Path) => i < |plan.inputs| && Met(plan.inputs[i], Sub(s, i), q)
  }

  class Truncation {
    var path: Path
    var remaining: set<Path>

    constructor (hints: set<Path>)
      ensures path == [] && remaining == hints
    {
      path, remaining := [], hints;
    }

    method ApplyTruncateHints(plan: Plan) returns (r: Result<Plan>)
      modifies this
      ensures path == old(path)
      ensures r == Truncated(plan, Below(old(remaining), path))
      ensures r.Ok? ==> forall p :: p in remaining <==>
                p in old(remaining) && !(path <= p && Met(plan, Below(old(remaining), path), p[|path|..]))
      decreases plan, 1
    {
      hide WithNewExprs, Expressions, Below, Sub;
      assert path + [] == path;
      assert forall p: Path | path <= p && p[|path|..] == [] :: p == path;
      if path in remaining {
        remaining := remaining - {path};
        return Ok(EmptyOf(plan));
      }
      var inputs := RewriteInputs(plan);
      if inputs.Err? {
        return Err;
      }
      r := WithNewExprs(plan, Expressions(plan), inputs.value);
    }

    method RewriteInputs(plan: Plan) returns (r: Result<seq<Plan>>)
      modifies this
      requires path !in remaining
      ensures path == old(path)
      ensures r == TruncatedInputs(plan, Below(old(remaining), path), |plan.inputs|)
      ensures r.Ok? ==> forall p :: p in remaining <==>
                && p in old(remaining)
                && !ConsumedInside(path, p, |plan.inputs|, Meeting(plan, Below(old(remaining), path)))
      decreases plan, 0
    {
      hide Below, Truncated, Sub, Met;
      ghost var hints := Below(remaining, path);
      var children := [];
      for i := 0 to |plan.inputs|
        invariant path == old(path) && TruncatedInputs(plan, hints, i) == Ok(children)
        invariant forall p ::
                    p in remaining <==> p in old(remaining) && !ConsumedInside(path, p, i, Meeting(plan, hints))
      {
        ghost var before := remaining;
        path := path + [i];
        InputHints(old(path), old(remaining), before, i, Meeting(plan, hints));
        var rewritten := ApplyTruncateHints(plan.inputs[i]);
        path := path[..|path| - 1];
        if rewritten.Err? {
          TruncatedFails(plan, hints, i, |plan.inputs|);
          return Err;
        }
        children := children + [rewritten.value];
        InputConsumed(old(path), old(remaining), before, remaining, i, Meeting(plan, hints));
      }
      r := Ok(children);
    }
  }

  lemma {:induction false} TruncatedFails(plan: Plan, s: set<Path>, i: nat, k: nat)
    requires i < k <= |plan.inputs| && Truncated(plan.inputs[i], Sub(s, i)).Err?
    ensures TruncatedInputs(plan, s, k).Err?
    decreases k
  {
    hide Truncated, Sub;
    if i < k - 1 {
      TruncatedFails(plan, s, i, k - 1);
    }
  }

  predicate AllMet(plan: Plan, s: set<Path>) {
    forall p | p in s :: Met(plan, s, p)
  }

  /** The whole truncation, with the check that no hint is left over. */
  method ApplyAllTruncateHints(plan: Plan, hints: set<Path>) returns (r: Result<Plan>)
    ensures r == if AllMet(plan, hints) then Truncated(plan, hints) else Err
  {
    var walk := new Truncation(hints);
    assert forall p: Path :: [] + p == p && p[0..] == p;
    assert Below(hints, []) == hints;
    var rewritten := walk.ApplyTruncateHints(plan);
    if rewritten.Err? || walk.remaining != {} {
      return Err;
    }
    r := rewritten;
  }

  // ---- when it succeeds ----

  /** A hint is met exactly when it resolves and has no other hint above it. */
  lemma {:induction false} MetMeaning(plan: Plan, s: set<Path>, q: Path)
    ensures Met(plan, s, q) <==> q in s && Resolves(plan, q) && forall p | p in s && p <= q :: p == q
    decreases plan
  {
    if q == [] {
      assert forall p | p in s && p <= q :: p == q;
    } else {
      EmptyPrefix(q);
      assert q == [q[0]] + q[1..];
      if q[0] < |plan.inputs| {
        MetMeaning(plan.inputs[q[0]], Sub(s, q[0]), q[1..]);
        if forall p | p in s && p <= q :: p == q {
          forall p | p in Sub(s, q[0]) && p <= q[1..] ensures p == q[1..] {
            PrefixUnderInput(q[0], p, q);
            assert [q[0]] + p == q;
          }
        }
        if [] !in s && forall p | p in Sub(s, q[0]) && p <= q[1..] :: p == q[1..] {
          forall p | p in s && p <= q ensures p == q {
            assert p != [] && p[0] == q[0] && p == [q[0]] + p[1..];
            PrefixUnderInput(q[0], p[1..], q);
          }
        }
      }
    }
  }

  /** All hints are met exactly when they resolve and none lies below another. */
  lemma AllMetMeaning(plan: Plan, s: set<Path>)
    ensures AllMet(plan, s) <==> PrefixFree(s) && forall p | p in s :: Resolves(plan, p)
  {
    forall p ensures Met(plan, s, p) <==> p in s && Resolves(plan, p) && forall q | q in s && q <= p :: q == p {
      MetMeaning(plan, s, p);
    }
  }

  /** Every node is as wanted that the walk keeps: hints end it. */
  predicate OnSpine(plan: Plan, s: set<Path>, wanted: Plan -> bool)
    decreases plan
  {
    [] in s || (wanted(plan) && forall i | 0 <= i < |plan.inputs| :: OnSpine(plan.inputs[i], Sub(s, i), wanted))
  }

  /** Every kept node can be rebuilt from its flattened expressions. */
  predicate SpineRebuilds(plan: Plan, s: set<Path>) {
    OnSpine(plan, s, FlatRebuilds)
  }

  predicate NoEquiJoin(plan: Plan) {
    plan.kind.Join? ==> plan.kind.on == []
  }

  predicate NoEquiJoinOnSpine(plan: Plan, s: set<Path>) {
    OnSpine(plan, s, NoEquiJoin)
  }

  /** `p` is a node that the walk keeps: no hint at it or above it. */
  ghost predicate Keeps(plan: Plan, s: set<Path>, p: Path) {
    Resolves(plan, p) && forall q | q in s :: !(q <= p)
  }

  lemma KeepsInput(plan: Plan, s: set<Path>, i: nat, p: Path)
    requires i < |plan.inputs| && [] !in s
    ensures Keeps(plan, s, [i] + p) <==> Keeps(plan.inputs[i], Sub(s, i), p)
  {
    assert ([i] + p)[1..] == p;
    if Keeps(plan, s, [i] + p) {
      forall q | q in Sub(s, i) ensures !(q <= p) {
        PrefixUnderInput(i, q, [i] + p);
      }
    }
    if Keeps(plan.inputs[i], Sub(s, i), p) {
      forall q | q in s ensures !(q <= [i] + p) {
        if q[0] == i {
          assert q == [i] + q[1..];
          PrefixUnderInput(i, q[1..], [i] + p);
        }
      }
    }
  }

  lemma {:induction false} KeptIsWanted(plan: Plan, s: set<Path>, wanted: Plan -> bool, p: Path)
    requires OnSpine(plan, s, wanted) && Keeps(plan, s, p)
    ensures wanted(NodeAt(plan, p))
    decreases plan
  {
    EmptyPrefix(p);
    if p != [] {
      assert p == [p[0]] + p[1..];
      KeepsInput(plan, s, p[0], p[1..]);
      KeptIsWanted(plan.inputs[p[0]], Sub(s, p[0]), wanted, p[1..]);
    }
  }

  lemma {:induction false} UnwantedIsKept(plan: Plan, s: set<Path>, wanted: Plan -> bool) returns (p: Path)
    requires !OnSpine(plan, s, wanted)
    ensures Keeps(plan, s, p) && !wanted(NodeAt(plan, p))
    decreases plan
  {
    if !wanted(plan) {
      p := [];
      assert forall q | q in s :: q != [];
    } else {
      var i :| 0 <= i < |plan.inputs| && !OnSpine(plan.inputs[i], Sub(s, i), wanted);
      var q := UnwantedIsKept(plan.inputs[i], Sub(s, i), wanted);
      KeepsInput(plan, s, i, q);
      p := [i] + q;
      assert p[1..] == q;
    }
  }

  /** The same node by node: all kept nodes are as wanted. */
  lemma SpineMeaning(plan: Plan, s: set<Path>, wanted: Plan -> bool)
    ensures OnSpine(plan, s, wanted) <==> forall p | Keeps(plan, s, p) :: wanted(NodeAt(plan, p))
  {
    if OnSpine(plan, s, wanted) {
      forall p | Keeps(plan, s, p) ensures wanted(NodeAt(plan, p)) {
        KeptIsWanted(plan, s, wanted, p);
      }
    } else {
      var p := UnwantedIsKept(plan, s, wanted);
    }
  }

  lemma {:induction false} TruncatedSucceeds(plan: Plan, s: set<Path>)
    ensures Truncated(plan, s).Ok? <==> SpineRebuilds(plan, s)
    decreases plan, 1
  {
    if [] !in s {
      TruncatedInputsSucceed(plan, s, |plan.inputs|);
      if TruncatedInputs(plan, s, |plan.inputs|).Ok? {
        FlatRebuild(plan, TruncatedInputs(plan, s, |plan.inputs|).value);
      }
    }
  }

  lemma {:induction false} TruncatedInputsSucceed(plan: Plan, s: set<Path>, k: nat)
    requires k <= |plan.inputs|
    ensures TruncatedInputs(plan, s, k).Ok? <==> forall i | 0 <= i < k :: SpineRebuilds(plan.inputs[i], Sub(s, i))
    decreases plan, 0, k
  {
    hide Truncated, SpineRebuilds, Sub;
    if k > 0 {
      TruncatedInputsSucceed(plan, s, k - 1);
      TruncatedSucceeds(plan.inputs[k - 1], Sub(s, k - 1));
    }
  }

  /** The exact condition for truncate replay, over all plans and hint sets. */
  lemma TruncateReplay(plan: Plan, s: set<Path>)
    ensures (AllMet(plan, s) && Truncated(plan, s).Ok?) <==>
              PrefixFree(s) && (forall p | p in s :: Resolves(plan, p)) && SpineRebuilds(plan, s)
  {
    AllMetMeaning(plan, s);
    TruncatedSucceeds(plan, s);
  }

  /** Without equi-joins on the rebuilt spine the walk only cuts. */
  lemma {:induction false} TruncatedIsCut(plan: Plan, s: set<Path>)
    requires NoEquiJoinOnSpine(plan, s)
    ensures Truncated(plan, s) == Ok(Cut(plan, s))
    decreases plan, 1
  {
    if [] !in s {
      TruncatedInputsAreCut(plan, s, |plan.inputs|);
      assert CutInputs(plan, s)[..|plan.inputs|] == CutInputs(plan, s);
      FlatRebuild(plan, CutInputs(plan, s));
    }
  }

  lemma {:induction false} TruncatedInputsAreCut(plan: Plan, s: set<Path>, k: nat)
    requires [] !in s && NoEquiJoinOnSpine(plan, s) && k <= |plan.inputs|
    ensures TruncatedInputs(plan, s, k) == Ok(CutInputs(plan, s)[..k])
    decreases plan, 0, k
  {
    hide Truncated, Cut, Sub;
    if k > 0 {
      TruncatedInputsAreCut(plan, s, k - 1);
      TruncatedIsCut(plan.inputs[k - 1], Sub(s, k - 1));
      var inputs := CutInputs(plan, s);
      assert inputs[..k] == inputs[..k - 1] + [inputs[k - 1]];
    }
  }

  /** The same nodes in the same places, joins perhaps with other keys. */
  predicate SameShape(a: Plan, b: Plan)
    decreases a
  {
    && (a.kind == b.kind || (a.kind.Join? && b.kind.Join?))
    && |a.inputs| == |b.inputs| && forall i | 0 <= i < |a.inputs| :: SameShape(a.inputs[i], b.inputs[i])
  }

  lemma {:induction false} SameShapeSelf(plan: Plan)
    ensures SameShape(plan, plan)
    decreases plan
  {
    forall i | 0 <= i < |plan.inputs| ensures SameShape(plan.inputs[i], plan.inputs[i]) {
      SameShapeSelf(plan.inputs[i]);
    }
  }

  /** Whatever it does to the keys of joins, the walk changes no node but the cut ones. */
  lemma {:induction false} TruncatedShape(plan: Plan, s: set<Path>)
    requires Truncated(plan, s).Ok?
    ensures SameShape(Truncated(plan, s).value, Cut(plan, s))
    decreases plan, 1
  {
    if [] in s {
      SameShapeSelf(EmptyOf(plan));
    } else {
      hide Expressions;
      TruncatedInputsShape(plan, s, |plan.inputs|);
    }
  }

  lemma {:induction false} TruncatedInputsShape(plan: Plan, s: set<Path>, k: nat)
    requires k <= |plan.inputs| && TruncatedInputs(plan, s, k).Ok?
    ensures forall i | 0 <= i < k :: SameShape(TruncatedInputs(plan, s, k).value[i], Cut(plan.inputs[i], Sub(s, i)))
    decreases plan, 0, k
  {
    hide Truncated, Cut, Sub, SameShape;
    if k > 0 {
      TruncatedInputsShape(plan, s, k - 1);
      TruncatedShape(plan.inputs[k - 1], Sub(s, k - 1));
    }
  }

  // ---- what it preserves ----

  /** Emptying subtrees that evaluate to no rows changes nothing. */
  lemma {:induction false} CutEval(plan: Plan, s: set<Path>, sem: Semantics)
    requires forall p | p in s && Resolves(plan, p) :: Eval(NodeAt(plan, p), sem) == []
    ensures Eval(Cut(plan, s), sem) == Eval(plan, sem)
    decreases plan
  {
    if [] in s {
      assert NodeAt(plan, []) == plan;
    } else {
      var inputs := CutInputs(plan, s);
      forall i | 0 <= i < |plan.inputs| ensures Eval(inputs[i], sem) == Eval(plan.inputs[i], sem) {
        forall p | p in Sub(s, i) && Resolves(plan.inputs[i], p) ensures Eval(NodeAt(plan.inputs[i], p), sem) == [] {
          assert ([i] + p)[1..] == p;
          assert Resolves(plan, [i] + p) && NodeAt(plan, [i] + p) == NodeAt(plan.inputs[i], p);
        }
        CutEval(plan.inputs[i], Sub(s, i), sem);
      }
      if IsWrapper(plan) {
        assert Cut(plan, s).inputs[0] == inputs[0];
      } else {
        EvalRebuilt(plan, inputs, sem);
      }
    }
  }

  /** A collected truncate hint points at a subtree without rows. */
  lemma CollectedTruncatesAreEmpty(session: Session, plan: Plan)
    requires Collected(TruncateEmptyPayloadRule, session, plan, false).Some?
    ensures forall p | p in HintSet(Collected(TruncateEmptyPayloadRule, session, plan, false).value) ::
              Resolves(plan, p) && Eval(NodeAt(plan, p), session.sem) == []
  {
    hide Collected, Strip;
    CollectedShape(TruncateEmptyPayloadRule, session, plan);
    forall p | p in HintSet(Collected(TruncateEmptyPayloadRule, session, plan, false).value)
      ensures Eval(NodeAt(plan, p), session.sem) == []
    {
      assert VisitsAs(TruncateEmptyPayloadRule, session, plan, p, false, Some(Pick));
      StripEval(NodeAt(plan, p), session.sem);
    }
  }

  /**
   * The walk meets all collected truncate hints and succeeds exactly when every node it keeps can be rebuilt; when it
   * keeps no equi-join, the truncated plan has the same rows and schema.
   */
  lemma CollectedTruncateReplay(session: Session, plan: Plan)
    requires Collected(TruncateEmptyPayloadRule, session, plan, false).Some?
    ensures var s := HintSet(Collected(TruncateEmptyPayloadRule, session, plan, false).value);
            && AllMet(plan, s)
            && (Truncated(plan, s).Ok? <==> SpineRebuilds(plan, s))
            && Eval(Cut(plan, s), session.sem) == Eval(plan, session.sem)
            && Cut(plan, s).schema == plan.schema
            && (NoEquiJoinOnSpine(plan, s) ==> Truncated(plan, s) == Ok(Cut(plan, s)))
  {
    hide Collected, Truncated, Eval, AllMet, SpineRebuilds, NoEquiJoinOnSpine;
    var s := HintSet(Collected(TruncateEmptyPayloadRule, session, plan, false).value);
    CollectedShape(TruncateEmptyPayloadRule, session, plan);
    AllMetMeaning(plan, s);
    TruncatedSucceeds(plan, s);
    if NoEquiJoinOnSpine(plan, s) {
      TruncatedIsCut(plan, s);
    }
    CollectedTruncatesAreEmpty(session, plan);
    CutEval(plan, s, session.sem);
  }
}
