/** What replayed wrappers do to a plan: order independence, erasure, and unchanged meaning. */
module Wrappers {
  import opened PlanTree
  import opened Rematerialize

  // ---- one pass against one path at a time ----

  /** Wrapping the node at a single path of the plan at hand. */
  function WrapOne(plan: Plan, p: Path, guard: bool): Plan
    decreases plan
  {
    if p == [] then (if guard then plan else Wrap(plan))
    else if p[0] < |plan.inputs| then
      plan.(inputs := plan.inputs[p[0] := WrapOne(plan.inputs[p[0]], p[1..], plan.kind.ResultCheck?)])
    else plan
  }

  function WrapEach(plan: Plan, ps: seq<Path>): Plan {
    if ps == [] then plan else WrapOne(WrapEach(plan, ps[..|ps| - 1]), ps[|ps| - 1], false)
  }

  /** A path may still be used after the paths of `s` when none of them is above it. */
  lemma {:induction false} WrapNext(plan: Plan, s: set<Path>, p: Path, guard: bool)
    requires forall q | q in s :: !(q <= p)
    ensures WrapOne(Wrapped(plan, s, guard), p, guard) == Wrapped(plan, s + {p}, guard)
    decreases plan
  {
    assert [] !in s by {
      assert [] <= p;
    }
    var before, after := Wrapped(plan, s, guard), Wrapped(plan, s + {p}, guard);
    if p == [] {
      forall i | 0 <= i < |plan.inputs| ensures Sub(s + {p}, i) == Sub(s, i) { }
      assert WrappedInputs(plan, s + {p}) == WrappedInputs(plan, s);
    } else {
      var k := p[0];
      assert p == [k] + p[1..];
      forall i | 0 <= i < |plan.inputs| && i != k ensures Sub(s + {p}, i) == Sub(s, i) { }
      if k < |plan.inputs| {
        assert Sub(s + {p}, k) == Sub(s, k) + {p[1..]} by {
          forall q: Path ensures q in Sub(s + {p}, k) <==> q in Sub(s, k) + {p[1..]} {
            assert ([k] + q)[1..] == q;
          }
        }
        forall q | q in Sub(s, k) ensures !(q <= p[1..]) {
          PrefixUnderInput(k, q, p);
        }
        WrapNext(plan.inputs[k], Sub(s, k), p[1..], plan.kind.ResultCheck?);
      }
      assert WrappedInputs(plan, s + {p})
          == if k < |plan.inputs| then before.inputs[k := WrapOne(before.inputs[k], p[1..], plan.kind.ResultCheck?)]
             else before.inputs;
    }
  }

  lemma PrefixUnderInput(k: nat, q: Path, p: Path)
    requires p != [] && p[0] == k
    ensures q <= p[1..] <==> [k] + q <= p
  {
    assert p == [k] + p[1..];
    if [k] + q <= p {
      assert forall i | 0 <= i < |q| :: q[i] == ([k] + q)[i + 1] == p[i + 1];
    }
  }

  ghost predicate DistinctPaths(ps: seq<Path>) {
    forall i, j | 0 <= i < j < |ps| :: ps[i] != ps[j]
  }

  ghost predicate LongestFirst(ps: seq<Path>) {
    forall i, j | 0 <= i < j < |ps| :: |ps[i]| >= |ps[j]|
  }

  lemma LastNotBelow(ps: seq<Path>, q: Path)
    requires DistinctPaths(ps) && LongestFirst(ps) && ps != [] && q in ps[..|ps| - 1]
    ensures !(q <= ps[|ps| - 1])
  {
    var i :| 0 <= i < |ps| - 1 && ps[i] == q;
  }

  lemma {:induction false} WrappedNothing(plan: Plan, guard: bool)
    ensures Wrapped(plan, {}, guard) == plan
    decreases plan
  {
    forall i | 0 <= i < |plan.inputs|
      ensures Wrapped(plan.inputs[i], Sub({}, i), plan.kind.ResultCheck?) == plan.inputs[i]
    {
      assert Sub({}, i) == {};
      WrappedNothing(plan.inputs[i], plan.kind.ResultCheck?);
    }
    assert WrappedInputs(plan, {}) == plan.inputs;
  }

  /** The one-pass replay is the hints applied one by one, longest path first. */
  lemma {:induction false} OnePassIsLongestFirst(plan: Plan, ps: seq<Path>)
    requires DistinctPaths(ps) && LongestFirst(ps)
    ensures WrapEach(plan, ps) == Wrapped(plan, set p | p in ps, false)
  {
    hide WrapOne, Wrapped;
    if ps == [] {
      WrappedNothing(plan, false);
      assert (set p | p in ps) == {};
    } else {
      var init, p := ps[..|ps| - 1], ps[|ps| - 1];
      var s := set q | q in init;
      OnePassIsLongestFirst(plan, init);
      forall q | q in s ensures !(q <= p) {
        LastNotBelow(ps, q);
      }
      WrapNext(plan, s, p, false);
      assert ps == init + [p];
      assert (set q | q in ps) == s + {p};
    }
  }

  // ---- erasure ----

  predicate WrapperFree(plan: Plan)
    decreases plan
  {
    !IsWrapper(plan) && forall i | 0 <= i < |plan.inputs| :: WrapperFree(plan.inputs[i])
  }

  /** No wrapper sits directly on another. */
  predicate NoAdjacentWrappers(plan: Plan)
    decreases plan
  {
    && (IsWrapper(plan) ==> !IsWrapper(plan.inputs[0]))
    && forall i | 0 <= i < |plan.inputs| :: NoAdjacentWrappers(plan.inputs[i])
  }

  /** The top-down transform: a wrapper is replaced by its input, whose own inputs are visited next. */
  function Strip(plan: Plan): Plan
    decreases plan
  {
    var node := if IsWrapper(plan) then plan.inputs[0] else plan;
    node.(inputs := seq(|node.inputs|, i requires 0 <= i < |node.inputs| => Strip(node.inputs[i])))
  }

  lemma {:induction false} WrappedNoAdjacent(plan: Plan, s: set<Path>, guard: bool)
    requires WrapperFree(plan)
    ensures NoAdjacentWrappers(Wrapped(plan, s, guard))
    ensures IsWrapper(Wrapped(plan, s, guard)) <==> [] in s && !guard
    decreases plan
  {
    forall i | 0 <= i < |plan.inputs|
      ensures NoAdjacentWrappers(Wrapped(plan.inputs[i], Sub(s, i), plan.kind.ResultCheck?))
    {
      WrappedNoAdjacent(plan.inputs[i], Sub(s, i), plan.kind.ResultCheck?);
    }
    var inner := plan.(inputs := WrappedInputs(plan, s));
    assert NoAdjacentWrappers(inner);
    if [] in s && !guard {
      assert Wrapped(plan, s, guard).inputs == [inner];
    }
  }

  /** Stripping undoes the replay, whatever was hinted. */
  lemma {:induction false} StripUndoes(plan: Plan, s: set<Path>, guard: bool)
    requires WrapperFree(plan)
    ensures Strip(Wrapped(plan, s, guard)) == plan
    decreases plan
  {
    var inner := plan.(inputs := WrappedInputs(plan, s));
    forall i | 0 <= i < |plan.inputs| ensures Strip(inner.inputs[i]) == plan.inputs[i] {
      StripUndoes(plan.inputs[i], Sub(s, i), plan.kind.ResultCheck?);
    }
    assert !IsWrapper(inner);
    assert seq(|inner.inputs|, i requires 0 <= i < |inner.inputs| => Strip(inner.inputs[i])) == plan.inputs;
  }

  /** Stripping removes every wrapper exactly when no wrapper sits on another: a stack of two leaves one behind. */
  lemma {:induction false} StripIsComplete(plan: Plan)
    ensures WrapperFree(Strip(plan)) <==> NoAdjacentWrappers(plan)
    decreases plan
  {
    var node := if IsWrapper(plan) then plan.inputs[0] else plan;
    forall i | 0 <= i < |node.inputs|
      ensures WrapperFree(Strip(plan).inputs[i]) <==> NoAdjacentWrappers(node.inputs[i])
    {
      StripIsComplete(node.inputs[i]);
    }
    assert IsWrapper(Strip(plan)) <==> IsWrapper(node);
    if IsWrapper(plan) && !IsWrapper(node) {
      assert plan.inputs == [node];
      assert NoAdjacentWrappers(plan) <==> NoAdjacentWrappers(node);
    }
  }

  /** Two wrappers on a leaf: stripping leaves one. */
  lemma StackedWrappers(leaf: Plan)
    requires leaf.inputs == [] && !IsWrapper(leaf)
    ensures Strip(Wrap(Wrap(leaf))) == Wrap(leaf) && !WrapperFree(Wrap(leaf))
  {
    assert Strip(leaf) == leaf;
    assert Strip(Wrap(Wrap(leaf))).inputs == [leaf];
  }

  // ---- meaning ----

  lemma EvalRebuilt(plan: Plan, inputs: seq<Plan>, sem: Semantics)
    requires !IsWrapper(plan) && |inputs| == |plan.inputs|
    requires forall i | 0 <= i < |inputs| :: Eval(inputs[i], sem) == Eval(plan.inputs[i], sem)
    ensures Eval(plan.(inputs := inputs), sem) == Eval(plan, sem)
  {
    var rebuilt := plan.(inputs := inputs);
    assert EvalAll(rebuilt, sem) == EvalAll(plan, sem);
  }

  /** Replayed wrappers do not change what the plan evaluates to. */
  lemma {:induction false} WrappedEval(plan: Plan, s: set<Path>, guard: bool, sem: Semantics)
    ensures Eval(Wrapped(plan, s, guard), sem) == Eval(plan, sem)
    decreases plan
  {
    var inputs := WrappedInputs(plan, s);
    forall i | 0 <= i < |plan.inputs| ensures Eval(inputs[i], sem) == Eval(plan.inputs[i], sem) {
      WrappedEval(plan.inputs[i], Sub(s, i), plan.kind.ResultCheck?, sem);
    }
    if !IsWrapper(plan) {
      EvalRebuilt(plan, inputs, sem);
    }
  }

  /** Neither does stripping them. */
  lemma {:induction false} StripEval(plan: Plan, sem: Semantics)
    ensures Eval(Strip(plan), sem) == Eval(plan, sem)
    decreases plan
  {
    var node := if IsWrapper(plan) then plan.inputs[0] else plan;
    var inputs := Strip(plan).inputs;
    forall i | 0 <= i < |inputs| ensures Eval(inputs[i], sem) == Eval(node.inputs[i], sem) {
      StripEval(node.inputs[i], sem);
    }
    if !IsWrapper(node) {
      EvalRebuilt(node, inputs, sem);
    }
  }
}
