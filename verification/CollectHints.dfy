/** The prover's walks that emit rematerialize and truncate hints, and which nodes they pick. */
module CollectHints {
  import opened Powers
  import opened Options
  import opened PlanTree
  import opened Rematerialize
  import opened Wrappers

  /** Executing plans: what operators compute, and which executions fail. */
  datatype Session = Session(sem: Semantics, fails: Plan -> bool)

  /** Rows produced by the plan with its wrappers stripped; `None` when the execution fails. */
  function RowCount(session: Session, plan: Plan): Option<nat> {
    var stripped := Strip(plan);
    if session.fails(stripped) then None else Some(|Eval(stripped, session.sem)|)
  }

  // ---- powers of two in a 64-bit machine word ----

  const USIZE_MAX: nat := 0xFFFF_FFFF_FFFF_FFFF

  function Min(a: nat, b: nat): nat { if a < b then a else b }

  function Max(a: nat, b: nat): nat { if a < b then b else a }

  /** Saturates at the word size for powers; the library's next power wraps to zero when it does not fit. */
  function NextPowerOfTwoStrict(value: nat): nat {
    if value <= 1 then Min(2, Max(1, value + 1))
    else if IsPowerOfTwo(value) then Min(2 * value, USIZE_MAX)
    else if NextPower(value) > USIZE_MAX then 0
    else NextPower(value)
  }

  lemma WordPower()
    ensures Pow2(63) == 0x8000_0000_0000_0000
  {
    assert Pow2(8) == 256;
    assert Pow2(16) == 65536;
    assert Pow2(24) == 0x100_0000;
    assert Pow2(32) == 0x1_0000_0000;
    assert Pow2(40) == 0x100_0000_0000;
    assert Pow2(48) == 0x1_0000_0000_0000;
    assert Pow2(56) == 0x100_0000_0000_0000;
  }

  /** The result is the least power of two strictly above the value exactly below `2^63`. */
  lemma StrictlyNextPower(value: nat)
    requires value <= USIZE_MAX
    ensures IsLeastPowerAtLeast(NextPowerOfTwoStrict(value), value + 1) <==> value < 0x8000_0000_0000_0000
  {
    WordPower();
    NextPowerLeast(value);
    BitTest(value);
    assert IsPower(0x8000_0000_0000_0000);
    if value <= 1 {
      assert Pow2(0) == 1 && Pow2(1) == 2;
      DoubledIsNext(1);
      NextPowerLeast(1);
      assert IsPower(1) && IsPower(2);
    } else if IsPower(value) {
      DoubledIsNext(value);
      if value >= 0x8000_0000_0000_0000 {
        OddIsNoPower(USIZE_MAX);
      }
    } else {
      StrictForOthers(value, NextPower(value));
      if value >= 0x8000_0000_0000_0000 {
        DoubledIsNext(0x8000_0000_0000_0000);
        assert NextPower(value) > USIZE_MAX;
        assert !IsPower(0);
      }
    }
  }

  /** At `2^63` the doubled power saturates to a number that is no power. */
  lemma StrictPowerSaturates()
    ensures !IsLeastPowerAtLeast(NextPowerOfTwoStrict(0x8000_0000_0000_0000), 0x8000_0000_0000_0001)
  {
    StrictlyNextPower(0x8000_0000_0000_0000);
  }

  lemma OddIsNoPower(n: nat)
    requires n > 1 && n % 2 == 1
    ensures !IsPower(n)
  {
  }

  // ---- which nodes are picked ----

  /** Input non-empty, and the output fits in a strictly smaller hypercube. */
  function HypercubeHalves(session: Session, input: Plan, plan: Plan): Option<bool> {
    match RowCount(session, input)
    case None => None
    case Some(before) =>
      if before == 0 then Some(false)
      else match RowCount(session, plan)
           case None => None
           case Some(after) => Some(NextPowerOfTwoStrict(after) < NextPowerOfTwoStrict(before))
  }

  function ShouldRematerialize(session: Session, plan: Plan): Option<bool> {
    if Supports(plan) && |plan.inputs| == 1 then HypercubeHalves(session, plan.inputs[0], plan) else Some(false)
  }

  datatype Rule = RematerializeRule | TruncateEmptyPayloadRule

  /** What a rule does at a node: emit a hint and stop, stop without one, or go on to the inputs. */
  datatype Visit = Pick | Skip | Descend

  function VisitOf(rule: Rule, session: Session, plan: Plan, guard: bool): Option<Visit> {
    match rule
    case RematerializeRule =>
      if guard then Some(Descend)
      else (match ShouldRematerialize(session, plan)
            case None => None
            case Some(yes) => Some(if yes then Pick else Descend))
    case TruncateEmptyPayloadRule =>
      if plan.kind.EmptyRelation? then Some(Skip)
      else match RowCount(session, plan)
           case None => None
           case Some(n) => Some(if n == 0 then Pick else Descend)
  }

  /** The hints a rule emits for a plan, in order and relative to it; `None` when an execution fails on the way. */
  function Collected(rule: Rule, session: Session, plan: Plan, guard: bool): Option<seq<Path>>
    decreases plan
  {
    match VisitOf(rule, session, plan, guard)
    case None => None
    case Some(Pick) => Some([[]])
    case Some(Skip) => Some([])
    case Some(Descend) => CollectedInputs(rule, session, plan, |plan.inputs|)
  }

  function CollectedInputs(rule: Rule, session: Session, plan: Plan, k: nat): Option<seq<Path>>
    requires k <= |plan.inputs|
    decreases plan, 0, k
  {
    if k == 0 then Some([])
    else match CollectedInputs(rule, session, plan, k - 1)
         case None => None
         case Some(before) =>
           match Collected(rule, session, plan.inputs[k - 1], plan.kind.ResultCheck?)
           case None => None
           case Some(ps) => Some(before + Rebased(ps, [k - 1]))
  }

  function Rebased(ps: seq<Path>, base: Path): (r: seq<Path>)
    ensures |r| == |ps| && forall i | 0 <= i < |ps| :: r[i] == base + ps[i]
  {
    seq(|ps|, i requires 0 <= i < |ps| => base + ps[i])
  }

  lemma RebasedTwice(ps: seq<Path>, base: Path, i: nat)
    ensures Rebased(Rebased(ps, [i]), base) == Rebased(ps, base + [i])
  {
    forall k | 0 <= k < |ps| ensures base + ([i] + ps[k]) == base + [i] + ps[k] { }
  }

  lemma RebasedAppend(ps: seq<Path>, qs: seq<Path>, base: Path)
    ensures Rebased(ps + qs, base) == Rebased(ps, base) + Rebased(qs, base)
  {
  }

  // ---- the walks ----

  /** The path to the current node, and the hints found so far. */
  class Collector {
    var path: Path
    var hints: seq<Path>

    constructor ()
      ensures path == [] && hints == []
    {
      path, hints := [], [];
    }

    /** Both rules walk alike: decide at the node, then go through the inputs with the path extended. */
    method Collect(rule: Rule, session: Session, plan: Plan, parentIsResultCheck: bool) returns (ok: bool)
      modifies this
      ensures path == old(path)
      ensures ok <==> Collected(rule, session, plan, parentIsResultCheck).Some?
      ensures ok ==> hints == old(hints) + Rebased(Collected(rule, session, plan, parentIsResultCheck).value, path)
      decreases plan, 1
    {
      hide VisitOf;
      OwnPath(path);
      match VisitOf(rule, session, plan, parentIsResultCheck) {
        case None =>
          ok := false;
        case Some(Pick) =>
          hints := hints + [path];
          ok := true;
        case Some(Skip) =>
          ok := true;
        case Some(Descend) =>
          ok := CollectInputs(rule, session, plan);
      }
    }

    method CollectInputs(rule: Rule, session: Session, plan: Plan) returns (ok: bool)
      modifies this
      ensures path == old(path)
      ensures ok <==> CollectedInputs(rule, session, plan, |plan.inputs|).Some?
      ensures ok ==> hints == old(hints) + Rebased(CollectedInputs(rule, session, plan, |plan.inputs|).value, path)
      decreases plan, 0
    {
      hide Collected, Rebased, VisitOf;
      OwnPath(path);
      for i := 0 to |plan.inputs|
        invariant path == old(path)
        invariant CollectedInputs(rule, session, plan, i).Some?
        invariant hints == old(hints) + Rebased(CollectedInputs(rule, session, plan, i).value, path)
      {
        path := path + [i];
        ok := Collect(rule, session, plan.inputs[i], plan.kind.ResultCheck?);
        path := path[..|path| - 1];
        if !ok {
          CollectedFails(rule, session, plan, i, |plan.inputs|);
          return;
        }
        CollectedStep(rule, session, plan, path, i);
      }
      ok := true;
    }
  }

  lemma OwnPath(base: Path)
    ensures Rebased([[]], base) == [base] && Rebased([], base) == []
  {
    assert base + [] == base;
  }

  lemma CollectedStep(rule: Rule, session: Session, plan: Plan, base: Path, i: nat)
    requires i < |plan.inputs| && CollectedInputs(rule, session, plan, i).Some?
    requires Collected(rule, session, plan.inputs[i], plan.kind.ResultCheck?).Some?
    ensures CollectedInputs(rule, session, plan, i + 1).Some?
    ensures Rebased(CollectedInputs(rule, session, plan, i + 1).value, base)
         == Rebased(CollectedInputs(rule, session, plan, i).value, base)
          + Rebased(Collected(rule, session, plan.inputs[i], plan.kind.ResultCheck?).value, base + [i])
  {
    hide VisitOf;
    var before := CollectedInputs(rule, session, plan, i).value;
    var ps := Collected(rule, session, plan.inputs[i], plan.kind.ResultCheck?).value;
    RebasedAppend(before, Rebased(ps, [i]), base);
    RebasedTwice(ps, base, i);
  }

  lemma {:induction false} CollectedFails(rule: Rule, session: Session, plan: Plan, i: nat, k: nat)
    requires i < k <= |plan.inputs|
    requires Collected(rule, session, plan.inputs[i], plan.kind.ResultCheck?).None?
    ensures CollectedInputs(rule, session, plan, k).None?
    decreases k
  {
    if i < k - 1 {
      CollectedFails(rule, session, plan, i, k - 1);
    }
  }

  // ---- the hints are the topmost picked nodes ----

  ghost predicate VisitsAs(rule: Rule, session: Session, plan: Plan, p: Path, guard: bool, visit: Option<Visit>)
    requires Resolves(plan, p)
  {
    VisitOf(rule, session, NodeAt(plan, p), Guarded(plan, p, guard)) == visit
  }

  /** The walk ends at `p` in that way: every node above it is descended through. */
  ghost predicate Ends(rule: Rule, session: Session, plan: Plan, p: Path, guard: bool, end: Option<Visit>)
    decreases plan
  {
    if p == [] then VisitOf(rule, session, plan, guard) == end
    else
      && VisitOf(rule, session, plan, guard) == Some(Descend)
      && p[0] < |plan.inputs| && Ends(rule, session, plan.inputs[p[0]], p[1..], plan.kind.ResultCheck?, end)
  }

  /** Every node above `p` is descended through. */
  ghost predicate DescendsTo(rule: Rule, session: Session, plan: Plan, p: Path, guard: bool) {
    forall n | 0 <= n < |p| :: Resolves(plan, p[..n]) && VisitsAs(rule, session, plan, p[..n], guard, Some(Descend))
  }

  lemma DescendsStep(rule: Rule, session: Session, plan: Plan, p: Path, guard: bool)
    requires p != [] && p[0] < |plan.inputs|
    ensures DescendsTo(rule, session, plan, p, guard) <==>
              && VisitOf(rule, session, plan, guard) == Some(Descend)
              && DescendsTo(rule, session, plan.inputs[p[0]], p[1..], plan.kind.ResultCheck?)
  {
    hide VisitOf;
    var input, g := plan.inputs[p[0]], plan.kind.ResultCheck?;
    assert p[..0] == [];
    forall n | 0 < n < |p|
      ensures Resolves(plan, p[..n]) <==> Resolves(input, p[1..][..n - 1])
      ensures Resolves(plan, p[..n]) ==>
                (VisitsAs(rule, session, plan, p[..n], guard, Some(Descend))
                 <==> VisitsAs(rule, session, input, p[1..][..n - 1], g, Some(Descend)))
    {
      assert p[..n][1..] == p[1..][..n - 1];
    }
    if DescendsTo(rule, session, plan, p, guard) {
      assert VisitsAs(rule, session, plan, p[..0], guard, Some(Descend));
      forall n | 0 <= n < |p[1..]|
        ensures Resolves(input, p[1..][..n]) && VisitsAs(rule, session, input, p[1..][..n], g, Some(Descend))
      {
        assert Resolves(plan, p[..n + 1]) && VisitsAs(rule, session, plan, p[..n + 1], guard, Some(Descend));
      }
    }
  }

  /** The same in terms of the nodes along the path. */
  lemma {:induction false} EndsMeaning(rule: Rule, session: Session, plan: Plan, p: Path, guard: bool,
                                       end: Option<Visit>)
    ensures Ends(rule, session, plan, p, guard, end) <==>
              && Resolves(plan, p) && VisitsAs(rule, session, plan, p, guard, end)
              && DescendsTo(rule, session, plan, p, guard)
    decreases plan
  {
    hide VisitOf, DescendsTo;
    if p == [] {
      NothingAbove(rule, session, plan, guard);
    } else if p[0] < |plan.inputs| {
      EndsMeaning(rule, session, plan.inputs[p[0]], p[1..], plan.kind.ResultCheck?, end);
      DescendsStep(rule, session, plan, p, guard);
    }
  }

  lemma NothingAbove(rule: Rule, session: Session, plan: Plan, guard: bool)
    ensures DescendsTo(rule, session, plan, [], guard)
  {
  }

  lemma {:induction false} CollectedMeaning(rule: Rule, session: Session, plan: Plan, guard: bool, p: Path)
    requires Collected(rule, session, plan, guard).Some?
    ensures p in Collected(rule, session, plan, guard).value <==> Ends(rule, session, plan, p, guard, Some(Pick))
    decreases plan, 1
  {
    hide VisitOf;
    if VisitOf(rule, session, plan, guard) == Some(Descend) {
      CollectedInputsMeaning(rule, session, plan, |plan.inputs|, p);
    }
  }

  lemma {:induction false} CollectedInputsMeaning(rule: Rule, session: Session, plan: Plan, k: nat, p: Path)
    requires k <= |plan.inputs| && CollectedInputs(rule, session, plan, k).Some?
    ensures p in CollectedInputs(rule, session, plan, k).value <==>
              p != [] && p[0] < k && Ends(rule, session, plan.inputs[p[0]], p[1..], plan.kind.ResultCheck?, Some(Pick))
    decreases plan, 0, k
  {
    hide VisitOf;
    if k > 0 {
      var before := CollectedInputs(rule, session, plan, k - 1).value;
      var ps := Collected(rule, session, plan.inputs[k - 1], plan.kind.ResultCheck?).value;
      CollectedInputsMeaning(rule, session, plan, k - 1, p);
      var here := Rebased(ps, [k - 1]);
      if p in here {
        var i :| 0 <= i < |here| && here[i] == p;
        assert p[1..] == ps[i];
      }
      if p != [] && p[0] == k - 1 {
        CollectedMeaning(rule, session, plan.inputs[k - 1], plan.kind.ResultCheck?, p[1..]);
        assert p == [k - 1] + p[1..];
        if p[1..] in ps {
          var i :| 0 <= i < |ps| && ps[i] == p[1..];
          assert here[i] == p;
        }
      }
    }
  }

  /** The topmost nodes of a rule do not lie below one another. */
  lemma {:induction false} EndsPrefixFree(rule: Rule, session: Session, plan: Plan, p: Path, q: Path, guard: bool)
    requires Ends(rule, session, plan, p, guard, Some(Pick)) && Ends(rule, session, plan, q, guard, Some(Pick))
    requires p <= q
    ensures p == q
    decreases plan
  {
    hide VisitOf;
    if p != [] {
      assert q[0] == p[0] && p[1..] <= q[1..];
      EndsPrefixFree(rule, session, plan.inputs[p[0]], p[1..], q[1..], plan.kind.ResultCheck?);
      assert p == [p[0]] + p[1..] && q == [q[0]] + q[1..];
    }
  }

  function HintSet(ps: seq<Path>): set<Path> {
    set p | p in ps
  }

  /** Emitted hints are prefix-free, resolve, and point at picked nodes. */
  lemma CollectedShape(rule: Rule, session: Session, plan: Plan)
    requires Collected(rule, session, plan, false).Some?
    ensures var s := HintSet(Collected(rule, session, plan, false).value);
            && PrefixFree(s)
            && forall p | p in s :: Resolves(plan, p) && VisitsAs(rule, session, plan, p, false, Some(Pick))
  {
    hide VisitOf, Collected;
    var ps := Collected(rule, session, plan, false).value;
    forall p | p in ps ensures Resolves(plan, p) && VisitsAs(rule, session, plan, p, false, Some(Pick)) {
      CollectedMeaning(rule, session, plan, false, p);
      EndsMeaning(rule, session, plan, p, false, Some(Pick));
    }
    forall p, q | p in ps && q in ps && p <= q ensures p == q {
      CollectedMeaning(rule, session, plan, false, p);
      CollectedMeaning(rule, session, plan, false, q);
      EndsPrefixFree(rule, session, plan, p, q, false);
    }
  }

  // ---- what the two rules collect, in terms of guards and row counts ----

  /**
   * A path is a rematerialize hint exactly when its node should be rematerialized and is no direct child of a result
   * check, and every node above it is such a child or should not be.
   */
  lemma RematerializeCollected(session: Session, plan: Plan, p: Path)
    requires Collected(RematerializeRule, session, plan, false).Some?
    ensures p in Collected(RematerializeRule, session, plan, false).value <==>
              && Resolves(plan, p) && !Guarded(plan, p, false)
              && ShouldRematerialize(session, NodeAt(plan, p)) == Some(true)
              && forall n | 0 <= n < |p| ::
                   Resolves(plan, p[..n]) && (Guarded(plan, p[..n], false)
                     || ShouldRematerialize(session, NodeAt(plan, p[..n])) == Some(false))
  {
    hide ShouldRematerialize, Collected;
    CollectedMeaning(RematerializeRule, session, plan, false, p);
    EndsMeaning(RematerializeRule, session, plan, p, false, Some(Pick));
    forall n | 0 <= n < |p| && Resolves(plan, p[..n])
      ensures VisitsAs(RematerializeRule, session, plan, p[..n], false, Some(Descend)) <==>
                Guarded(plan, p[..n], false) || ShouldRematerialize(session, NodeAt(plan, p[..n])) == Some(false)
    {
    }
  }

  /** A path is a truncate hint exactly when its node is no empty relation and has no rows, and those above it have. */
  lemma TruncateCollected(session: Session, plan: Plan, p: Path)
    requires Collected(TruncateEmptyPayloadRule, session, plan, false).Some?
    ensures p in Collected(TruncateEmptyPayloadRule, session, plan, false).value <==>
              && Resolves(plan, p) && !NodeAt(plan, p).kind.EmptyRelation?
              && RowCount(session, NodeAt(plan, p)) == Some(0)
              && forall n | 0 <= n < |p| ::
                   Resolves(plan, p[..n]) && !NodeAt(plan, p[..n]).kind.EmptyRelation?
                   && RowCount(session, NodeAt(plan, p[..n])).Some? && RowCount(session, NodeAt(plan, p[..n])).value > 0
  {
    hide RowCount, Collected;
    CollectedMeaning(TruncateEmptyPayloadRule, session, plan, false, p);
    EndsMeaning(TruncateEmptyPayloadRule, session, plan, p, false, Some(Pick));
    forall n | 0 <= n < |p| && Resolves(plan, p[..n])
      ensures VisitsAs(TruncateEmptyPayloadRule, session, plan, p[..n], false, Some(Descend)) <==>
                && !NodeAt(plan, p[..n]).kind.EmptyRelation?
                && RowCount(session, NodeAt(plan, p[..n])).Some? && RowCount(session, NodeAt(plan, p[..n])).value > 0
    {
    }
  }

  /** Over an empty input nothing is rematerialized, and the node itself is not executed. */
  lemma EmptyInputNotPicked(session: Session, plan: Plan)
    requires (plan.kind.Filter? || plan.kind.Aggregate?) && |plan.inputs| == 1
    requires RowCount(session, plan.inputs[0]) == Some(0)
    ensures ShouldRematerialize(session, plan) == Some(false)
  {
  }

  /** Nothing but filters and aggregates is ever rematerialized. */
  lemma OnlyFiltersAndAggregates(session: Session, plan: Plan)
    requires !plan.kind.Filter? && !plan.kind.Aggregate?
    ensures ShouldRematerialize(session, plan) == Some(false)
  {
  }

  lemma {:induction false} EndsFails(rule: Rule, session: Session, plan: Plan, p: Path, guard: bool)
    requires Ends(rule, session, plan, p, guard, None)
    ensures Collected(rule, session, plan, guard).None?
    decreases plan
  {
    hide VisitOf;
    if p != [] {
      EndsFails(rule, session, plan.inputs[p[0]], p[1..], plan.kind.ResultCheck?);
      CollectedFails(rule, session, plan, p[0], |plan.inputs|);
    }
  }

  lemma {:induction false} FailsSomewhere(rule: Rule, session: Session, plan: Plan, guard: bool) returns (p: Path)
    requires Collected(rule, session, plan, guard).None?
    ensures Ends(rule, session, plan, p, guard, None)
    decreases plan, 1
  {
    hide VisitOf;
    p := [];
    if VisitOf(rule, session, plan, guard) != None {
      var i, q := FailsInside(rule, session, plan, |plan.inputs|);
      p := [i] + q;
      assert p[1..] == q;
    }
  }

  lemma {:induction false} FailsInside(rule: Rule, session: Session, plan: Plan, k: nat) returns (i: nat, q: Path)
    requires k <= |plan.inputs| && CollectedInputs(rule, session, plan, k).None?
    ensures i < k && Ends(rule, session, plan.inputs[i], q, plan.kind.ResultCheck?, None)
    decreases plan, 0, k
  {
    hide VisitOf, Ends, Collected;
    if CollectedInputs(rule, session, plan, k - 1).None? {
      i, q := FailsInside(rule, session, plan, k - 1);
    } else {
      i := k - 1;
      q := FailsSomewhere(rule, session, plan.inputs[k - 1], plan.kind.ResultCheck?);
    }
  }

  /** Collecting fails exactly when some execution fails at a node that is reached. */
  lemma CollectionFailure(rule: Rule, session: Session, plan: Plan, guard: bool)
    ensures Collected(rule, session, plan, guard).None? <==> exists p :: Ends(rule, session, plan, p, guard, None)
  {
    hide Ends, Collected;
    if Collected(rule, session, plan, guard).None? {
      var p := FailsSomewhere(rule, session, plan, guard);
    }
    forall p | Ends(rule, session, plan, p, guard, None) ensures Collected(rule, session, plan, guard).None? {
      EndsFails(rule, session, plan, p, guard);
    }
  }

  /** Paths in the order in which a walk meets them. */
  predicate LexBefore(p: Path, q: Path) {
    q != [] && (p == [] || p[0] < q[0] || (p[0] == q[0] && LexBefore(p[1..], q[1..])))
  }

  /** Hints come in the order of the walk, so none comes twice. */
  lemma {:induction false} CollectedInOrder(rule: Rule, session: Session, plan: Plan, guard: bool)
    requires Collected(rule, session, plan, guard).Some?
    ensures var ps := Collected(rule, session, plan, guard).value;
            forall i, j | 0 <= i < j < |ps| :: LexBefore(ps[i], ps[j])
    decreases plan, 1
  {
    hide VisitOf;
    if VisitOf(rule, session, plan, guard) == Some(Descend) {
      InputsInOrder(rule, session, plan, |plan.inputs|);
    }
  }

  lemma {:induction false} InputsInOrder(rule: Rule, session: Session, plan: Plan, k: nat)
    requires k <= |plan.inputs| && CollectedInputs(rule, session, plan, k).Some?
    ensures var ps := CollectedInputs(rule, session, plan, k).value;
            && (forall i | 0 <= i < |ps| :: ps[i] != [] && ps[i][0] < k)
            && forall i, j | 0 <= i < j < |ps| :: LexBefore(ps[i], ps[j])
    decreases plan, 0, k
  {
    hide Collected;
    if k > 0 {
      var ps := Collected(rule, session, plan.inputs[k - 1], plan.kind.ResultCheck?).value;
      InputsInOrder(rule, session, plan, k - 1);
      CollectedInOrder(rule, session, plan.inputs[k - 1], plan.kind.ResultCheck?);
      var here := Rebased(ps, [k - 1]);
      forall i, j | 0 <= i < j < |here| ensures LexBefore(here[i], here[j]) {
        assert here[i][1..] == ps[i] && here[j][1..] == ps[j];
      }
    }
  }

  /** A node picked for rematerialization can be wrapped and is not under a result check. */
  lemma PickedTarget(session: Session, plan: Plan, p: Path)
    requires Resolves(plan, p) && VisitsAs(RematerializeRule, session, plan, p, false, Some(Pick))
    ensures !Guarded(plan, p, false) && Supports(NodeAt(plan, p))
  {
  }

  /** With counts below `2^63` a node is picked exactly when its output fits a strictly smaller hypercube. */
  lemma PickedByCounts(session: Session, plan: Plan, before: nat, after: nat, b: nat, a: nat)
    requires (plan.kind.Filter? || plan.kind.Aggregate?) && |plan.inputs| == 1
    requires RowCount(session, plan.inputs[0]) == Some(before) && RowCount(session, plan) == Some(after)
    requires before < 0x8000_0000_0000_0000 && after < 0x8000_0000_0000_0000
    requires IsLeastPowerAtLeast(b, before + 1) && IsLeastPowerAtLeast(a, after + 1)
    ensures ShouldRematerialize(session, plan) == Some(before > 0 && a < b)
  {
    StrictlyNextPower(before);
    StrictlyNextPower(after);
  }

  /** Collected rematerialize hints always replay. */
  lemma CollectedReplays(session: Session, plan: Plan)
    requires Collected(RematerializeRule, session, plan, false).Some?
    ensures Replayable(plan, HintSet(Collected(RematerializeRule, session, plan, false).value))
  {
    hide Collected;
    CollectedShape(RematerializeRule, session, plan);
    forall p | p in HintSet(Collected(RematerializeRule, session, plan, false).value)
      ensures Resolves(plan, p) && Targetable(plan, p, false)
    {
      PickedTarget(session, plan, p);
    }
  }

  /** A prefix-free, unguarded hint becomes a wrapper at its own path, around the untouched subtree. */
  lemma {:induction false} HintBecomesWrapper(plan: Plan, s: set<Path>, p: Path, guard: bool)
    requires PrefixFree(s) && p in s && Resolves(plan, p) && !Guarded(plan, p, guard)
    ensures Resolves(Wrapped(plan, s, guard), p) && NodeAt(Wrapped(plan, s, guard), p) == Wrap(NodeAt(plan, p))
    decreases plan
  {
    if p == [] {
      forall q | q in s ensures q == [] {
        assert p <= q;
      }
      assert s == {[]};
      forall i | 0 <= i < |plan.inputs|
        ensures Wrapped(plan.inputs[i], Sub(s, i), plan.kind.ResultCheck?) == plan.inputs[i]
      {
        assert Sub(s, i) == {};
        WrappedNothing(plan.inputs[i], plan.kind.ResultCheck?);
      }
      assert WrappedInputs(plan, s) == plan.inputs;
    } else {
      if [] in s {
        EmptyPrefix(p);
      }
      PrefixFreeSub(s, p[0]);
      assert p == [p[0]] + p[1..];
      HintBecomesWrapper(plan.inputs[p[0]], Sub(s, p[0]), p[1..], plan.kind.ResultCheck?);
    }
  }

  lemma EmptyPrefix(p: Path)
    ensures [] <= p
  {
  }
}
