/** Passes over the arena: sequential in either order, or in parallel under any schedule. */
module PassEngine {
  import opened Options
  import opened Arena

  datatype PassOrder = PreOrder | PostOrder

  /** A pass without state of its own. */
  datatype Pass<!PIn, !POut> = Pass(
    order: PassOrder,
    transform: (NodeId, Option<PIn>) -> Option<POut>,
    fallback: NodeId -> Option<PIn>)

  type Payloads<T> = map<NodeId, Option<T>>

  /** A node's entry, if it has one; an entry may hold nothing. */
  function Entry<T>(payloads: Payloads<T>, id: NodeId): Option<Option<T>> {
    if id in payloads then Some(payloads[id]) else None
  }

  /**
   * What a pass stores for a node. In sequence a missing payload is replaced by the fallback, with or without an entry;
   * in parallel nodes without an entry are skipped and there is no fallback.
   */
  function NodeOut<PIn, POut>(pass: Pass<PIn, POut>, inParallel: bool, id: NodeId, entry: Option<Option<PIn>>)
      : Option<POut>
  {
    match entry
    case None => if inParallel then None else pass.transform(id, pass.fallback(id))
    case Some(payload) => pass.transform(id, if inParallel || payload.Some? then payload else pass.fallback(id))
  }

  ghost predicate Stores<POut(!new)>(out: Payloads<POut>, nodes: seq<NodeId>, value: NodeId -> Option<POut>) {
    (forall id :: id in out <==> id in nodes) && forall id | id in out :: out[id] == value(id)
  }

  // ---- traversal orders ----

  /** Pre-order over the unfolded graph: a shared node is visited once for every way to reach it. */
  function Unfolding(dag: Dag, node: NodeId): seq<NodeId>
    requires dag.Acyclic()
    decreases dag.rank(node), 1, 0
  {
    [node] + UnfoldingAll(dag, node, |dag.children(node)|)
  }

  function UnfoldingAll(dag: Dag, node: NodeId, k: nat): seq<NodeId>
    requires dag.Acyclic() && k <= |dag.children(node)|
    decreases dag.rank(node), 0, k
  {
    if k == 0 then []
    else
      assert dag.children(node)[k - 1] in dag.children(node);
      UnfoldingAll(dag, node, k - 1) + Unfolding(dag, dag.children(node)[k - 1])
  }

  class Walker {
    var out: seq<NodeId>

    constructor ()
      ensures out == []
    {
      out := [];
    }

    method Walk(dag: Dag, node: NodeId)
      requires dag.Acyclic()
      modifies this
      ensures out == old(out) + Unfolding(dag, node)
      decreases dag.rank(node)
    {
      out := out + [node];
      var kids := dag.children(node);
      for i := 0 to |kids|
        invariant out == old(out) + [node] + UnfoldingAll(dag, node, i)
      {
        assert kids[i] in kids;
        Walk(dag, kids[i]);
      }
    }
  }

  /** The unfolding visits exactly the reachable nodes. */
  lemma {:induction false} UnfoldingReaches(dag: Dag, node: NodeId, n: NodeId)
    requires dag.Acyclic()
    ensures n in Unfolding(dag, node) <==> Reaches(dag, node, n)
    decreases dag.rank(node), 1, 0
  {
    var kids := dag.children(node);
    UnfoldingAllReaches(dag, node, |kids|, n);
    NodeReach(dag, node);
    assert kids[..|kids|] == kids;
  }

  lemma {:induction false} UnfoldingAllReaches(dag: Dag, node: NodeId, k: nat, n: NodeId)
    requires dag.Acyclic() && k <= |dag.children(node)|
    ensures n in UnfoldingAll(dag, node, k) <==> ReachedFrom(dag, dag.children(node)[..k], n)
    decreases dag.rank(node), 0, k
  {
    if k > 0 {
      var kids := dag.children(node);
      assert kids[k - 1] in kids;
      UnfoldingAllReaches(dag, node, k - 1, n);
      UnfoldingReaches(dag, kids[k - 1], n);
      MoreReached(dag, kids, k - 1);
    }
  }

  /** Children from left to right, each with all below it. */
  lemma {:induction false} SubtreesInOrder(dag: Dag, node: NodeId, i: nat, k: nat)
    requires dag.Acyclic() && i < k <= |dag.children(node)|
    ensures dag.rank(dag.children(node)[i]) < dag.rank(node)
    ensures UnfoldingAll(dag, node, i) + Unfolding(dag, dag.children(node)[i]) <= UnfoldingAll(dag, node, k)
    decreases k
  {
    assert dag.children(node)[i] in dag.children(node);
    if i < k - 1 {
      SubtreesInOrder(dag, node, i, k - 1);
      assert UnfoldingAll(dag, node, k - 1) <= UnfoldingAll(dag, node, k);
    }
  }

  /** The nodes a pass visits, in its order. */
  method OrderedNodes(dag: Dag, root: NodeId, arena: seq<NodeId>, order: PassOrder) returns (nodes: seq<NodeId>)
    requires dag.Acyclic() && IsArena(dag, root, arena)
    ensures forall n :: n in nodes <==> n in arena
    ensures nodes == if order.PostOrder? then arena else Unfolding(dag, root)
  {
    match order {
      case PostOrder =>
        nodes := arena;
      case PreOrder =>
        var walker := new Walker();
        walker.Walk(dag, root);
        nodes := walker.out;
        forall n ensures n in nodes <==> n in arena {
          UnfoldingReaches(dag, root, n);
        }
    }
  }

  /** Parents first: after the root, every listed node is a child of one listed before it. */
  ghost predicate ParentsFirst(dag: Dag, xs: seq<NodeId>) {
    forall i | 0 < i < |xs| :: ParentBefore(dag, xs, i)
  }

  ghost predicate ParentBefore(dag: Dag, xs: seq<NodeId>, i: nat)
    requires i < |xs|
  {
    exists j | 0 <= j < i :: xs[i] in dag.children(xs[j])
  }

  lemma {:induction false} UnfoldingParentsFirst(dag: Dag, node: NodeId)
    requires dag.Acyclic()
    ensures Unfolding(dag, node) != [] && Unfolding(dag, node)[0] == node
    ensures ParentsFirst(dag, Unfolding(dag, node))
    decreases dag.rank(node), 1, 0
  {
    UnfoldingAllParentsFirst(dag, node, |dag.children(node)|);
  }

  lemma {:induction false} UnfoldingAllParentsFirst(dag: Dag, node: NodeId, k: nat)
    requires dag.Acyclic() && k <= |dag.children(node)|
    ensures ParentsFirst(dag, [node] + UnfoldingAll(dag, node, k))
    decreases dag.rank(node), 0, k
  {
    hide ParentsFirst, UnfoldingAll;
    UnfoldingStep(dag, node, k);
    if k == 0 {
      AloneParentsFirst(dag, node);
    } else {
      var child := dag.children(node)[k - 1];
      assert child in dag.children(node);
      var before, sub := [node] + UnfoldingAll(dag, node, k - 1), Unfolding(dag, child);
      UnfoldingAllParentsFirst(dag, node, k - 1);
      UnfoldingParentsFirst(dag, child);
      assert before + sub == [node] + UnfoldingAll(dag, node, k);
      ParentsFirstTogether(dag, before, sub);
    }
  }

  lemma UnfoldingStep(dag: Dag, node: NodeId, k: nat)
    requires dag.Acyclic() && k <= |dag.children(node)|
    ensures k > 0 ==> dag.rank(dag.children(node)[k - 1]) < dag.rank(node)
    ensures UnfoldingAll(dag, node, k)
         == if k == 0 then [] else UnfoldingAll(dag, node, k - 1) + Unfolding(dag, dag.children(node)[k - 1])
  {
    if k > 0 {
      assert dag.children(node)[k - 1] in dag.children(node);
    }
  }

  lemma AloneParentsFirst(dag: Dag, node: NodeId)
    ensures ParentsFirst(dag, [node] + [])
  {
  }

  /** A listing may be followed by one whose root is a child of the first root. */
  lemma ParentsFirstTogether(dag: Dag, xs: seq<NodeId>, ys: seq<NodeId>)
    requires xs != [] && ys != [] && ys[0] in dag.children(xs[0])
    requires ParentsFirst(dag, xs) && ParentsFirst(dag, ys)
    ensures ParentsFirst(dag, xs + ys)
  {
    var all := xs + ys;
    forall i | 0 < i < |all| ensures ParentBefore(dag, all, i) {
      if i < |xs| {
        assert ParentBefore(dag, xs, i);
        var j :| 0 <= j < i && xs[i] in dag.children(xs[j]);
        assert all[j] == xs[j] && all[i] == xs[i];
      } else if i == |xs| {
        assert all[0] == xs[0] && all[i] == ys[0];
      } else {
        assert ParentBefore(dag, ys, i - |xs|);
        var j :| 0 <= j < i - |xs| && ys[i - |xs|] in dag.children(ys[j]);
        assert all[|xs| + j] == ys[j] && all[i] == ys[i - |xs|];
      }
    }
  }

  // ---- traversals ----

  method ApplySequential<PIn, POut(!new)>(dag: Dag, root: NodeId, arena: seq<NodeId>, payloads: Payloads<PIn>,
                                          pass: Pass<PIn, POut>) returns (out: Payloads<POut>)
    requires dag.Acyclic() && IsArena(dag, root, arena)
    ensures Stores(out, arena, id => NodeOut(pass, false, id, Entry(payloads, id)))
    ensures forall id | id in out ::
              out[id] ==
                pass.transform(id, if id in payloads && payloads[id].Some? then payloads[id] else pass.fallback(id))
  {
    var nodes := OrderedNodes(dag, root, arena, pass.order);
    out := map[];
    for i := 0 to |nodes|
      invariant forall id :: id in out <==> id in nodes[..i]
      invariant forall id | id in out :: out[id] == NodeOut(pass, false, id, Entry(payloads, id))
    {
      var id := nodes[i];
      var existing := if id in payloads then payloads[id] else None;
      var fallback := if existing.None? then pass.fallback(id) else None;
      var input := if existing.Some? then existing else fallback;
      out := out[id := pass.transform(id, input)];
      assert nodes[..i + 1] == nodes[..i] + [id];
    }
    assert nodes[..|nodes|] == nodes;
  }

  /** Any schedule: the nodes are taken in an order nobody chose. A pre-order pass is refused. */
  method ApplyParallel<PIn, POut(!new)>(arena: seq<NodeId>, payloads: Payloads<PIn>, pass: Pass<PIn, POut>)
      returns (out: Option<Payloads<POut>>)
    ensures pass.order.PreOrder? ==> out.None?
    ensures pass.order.PostOrder? ==>
              out.Some? && Stores(out.value, arena, id => NodeOut(pass, true, id, Entry(payloads, id)))
    ensures pass.order.PostOrder? ==> forall id | id in out.value ::
              out.value[id] == if id in payloads then pass.transform(id, payloads[id]) else None
  {
    if pass.order.PreOrder? {
      return None;
    }
    var done: Payloads<POut> := map[];
    var todo := set id | id in arena;
    while todo != {}
      invariant forall id :: id in done <==> id in arena && id !in todo
      invariant forall id | id in todo :: id in arena
      invariant forall id | id in done :: done[id] == NodeOut(pass, true, id, Entry(payloads, id))
      decreases todo
    {
      var id :| id in todo;
      var result := if id in payloads then pass.transform(id, payloads[id]) else None;
      done := done[id := result];
      todo := todo - {id};
    }
    out := Some(done);
  }

  // ---- agreement ----

  /** Two maps stored for the same nodes from node functions agree exactly when the functions do on those nodes. */
  lemma StoresUnique<POut(!new)>(a: Payloads<POut>, b: Payloads<POut>, nodes: seq<NodeId>,
                                 f: NodeId -> Option<POut>, g: NodeId -> Option<POut>)
    requires Stores(a, nodes, f) && Stores(b, nodes, g)
    ensures a == b <==> forall id | id in nodes :: f(id) == g(id)
  {
    if a == b {
      forall id | id in nodes ensures f(id) == g(id) {
        assert a[id] == f(id) && b[id] == g(id);
      }
    }
  }

  /**
   * The traversals agree exactly when every node without an entry is turned into nothing, and every node whose entry
   * holds nothing into the same with its fallback as without.
   */
  lemma SequentialIsParallel<PIn(!new), POut(!new)>(arena: seq<NodeId>, payloads: Payloads<PIn>, pass: Pass<PIn, POut>,
                                                    s: Payloads<POut>, p: Payloads<POut>)
    requires Stores(s, arena, id => NodeOut(pass, false, id, Entry(payloads, id)))
    requires Stores(p, arena, id => NodeOut(pass, true, id, Entry(payloads, id)))
    ensures s == p <==> forall id | id in arena ::
              if id !in payloads then pass.transform(id, pass.fallback(id)) == None
              else payloads[id].Some? || pass.transform(id, pass.fallback(id)) == pass.transform(id, None)
  {
    var f := (id: NodeId) => NodeOut(pass, false, id, Entry(payloads, id));
    var g := (id: NodeId) => NodeOut(pass, true, id, Entry(payloads, id));
    StoresUnique(s, p, arena, f, g);
    forall id | id in arena
      ensures f(id) == g(id) <==>
                if id !in payloads then pass.transform(id, pass.fallback(id)) == None
                else payloads[id].Some? || pass.transform(id, pass.fallback(id)) == pass.transform(id, None)
    {
    }
  }

  /** Without a fallback and with an entry for every node they always agree. */
  lemma CoveredAgree<PIn(!new), POut(!new)>(arena: seq<NodeId>, payloads: Payloads<PIn>, pass: Pass<PIn, POut>,
                                            s: Payloads<POut>, p: Payloads<POut>)
    requires (forall id :: pass.fallback(id) == None) && forall id | id in arena :: id in payloads
    requires Stores(s, arena, id => NodeOut(pass, false, id, Entry(payloads, id)))
    requires Stores(p, arena, id => NodeOut(pass, true, id, Entry(payloads, id)))
    ensures s == p
  {
    SequentialIsParallel(arena, payloads, pass, s, p);
  }

  /** A node without an entry, under a pass that makes `made` of nothing. */
  lemma SkippedNodeDiffers(id: NodeId, made: nat)
    ensures var pass := Pass(PostOrder, (n: NodeId, p: Option<nat>) => Some(made), (n: NodeId) => None);
            && NodeOut(pass, false, id, Entry(map[], id)) == Some(made)
            && NodeOut(pass, true, id, Entry(map[], id)) == None
  {
  }

  /** A node whose entry holds nothing, under a pass with a fallback that it hands on. */
  lemma FallbackDiffers(id: NodeId, given: nat)
    ensures var pass := Pass(PostOrder, (n: NodeId, p: Option<nat>) => p, (n: NodeId) => Some(given));
            && NodeOut(pass, false, id, Entry(map[id := None], id)) == Some(given)
            && NodeOut(pass, true, id, Entry(map[id := None], id)) == None
  {
  }

  // ---- chains ----

  /** A node's entry after a chain of passes: what each pass in turn makes of the entry before it. */
  function Composed<T>(passes: seq<Pass<T, T>>, parallel: seq<bool>, id: NodeId, entry: Option<Option<T>>)
      : Option<Option<T>>
    requires |parallel| == |passes|
  {
    if passes == [] then entry
    else
      var n := |passes| - 1;
      Some(NodeOut(passes[n], parallel[n], id, Composed(passes[..n], parallel[..n], id, entry)))
  }

  /** `new_empty`: every node of the arena, without a payload. */
  function NewEmpty<T>(arena: seq<NodeId>): (r: Payloads<T>)
    ensures forall id :: id in r <==> id in arena
    ensures forall id | id in r :: r[id] == None
  {
    map id | id in arena :: None
  }

  /** Every node of the arena holds what the chain made of its own first entry; after a pass there are no other keys. */
  ghost predicate Chained<T(!new)>(out: Payloads<T>, arena: seq<NodeId>, start: Payloads<T>, passes: seq<Pass<T, T>>,
                                   parallel: seq<bool>)
    requires |parallel| == |passes|
  {
    && (passes == [] ==> out == start)
    && (passes != [] ==> forall id :: id in out <==> id in arena)
    && forall id | id in arena :: Entry(out, id) == Composed(passes, parallel, id, Entry(start, id))
  }

  lemma ChainStep<T(!new)>(arena: seq<NodeId>, start: Payloads<T>, passes: seq<Pass<T, T>>, parallel: seq<bool>, i: nat,
                           before: Payloads<T>, after: Payloads<T>)
    requires |parallel| == |passes| && i < |passes| && Chained(before, arena, start, passes[..i], parallel[..i])
    requires Stores(after, arena, id => NodeOut(passes[i], parallel[i], id, Entry(before, id)))
    ensures Chained(after, arena, start, passes[..i + 1], parallel[..i + 1])
  {
    var f := (id: NodeId) => NodeOut(passes[i], parallel[i], id, Entry(before, id));
    assert passes[..i + 1][..i] == passes[..i] && parallel[..i + 1][..i] == parallel[..i];
    forall id | id in arena
      ensures Entry(after, id) == Composed(passes[..i + 1], parallel[..i + 1], id, Entry(start, id))
    {
      assert after[id] == f(id);
    }
  }

  /**
   * A pipeline, each pass in parallel or not: the keys become the arena's and each node sees only its own payloads.
   * It is refused exactly when a pre-order pass is to run in parallel.
   */
  method RunChain<T(!new)>(dag: Dag, root: NodeId, arena: seq<NodeId>, payloads: Payloads<T>, passes: seq<Pass<T, T>>,
                           parallel: seq<bool>) returns (r: Option<Payloads<T>>)
    requires dag.Acyclic() && IsArena(dag, root, arena)
    requires |parallel| == |passes|
    ensures r.None? <==> exists i | 0 <= i < |passes| :: parallel[i] && passes[i].order.PreOrder?
    ensures r.Some? ==> Chained(r.value, arena, payloads, passes, parallel)
  {
    hide Composed, NodeOut, IsArena, Stores;
    var out := payloads;
    NoPasses(arena, payloads);
    for i := 0 to |passes|
      invariant Chained(out, arena, payloads, passes[..i], parallel[..i])
      invariant forall k | 0 <= k < i :: !(parallel[k] && passes[k].order.PreOrder?)
    {
      ghost var before := out;
      if parallel[i] {
        var done := ApplyParallel(arena, out, passes[i]);
        if done.None? {
          return None;
        }
        out := done.value;
      } else {
        out := ApplySequential(dag, root, arena, out, passes[i]);
      }
      StoresPass(arena, before, passes[i], parallel[i], out);
      ChainStep(arena, payloads, passes, parallel, i, before, out);
    }
    assert passes[..|passes|] == passes && parallel[..|passes|] == parallel;
    r := Some(out);
  }

  lemma StoresPass<PIn, POut(!new)>(arena: seq<NodeId>, before: Payloads<PIn>, pass: Pass<PIn, POut>, inParallel: bool,
                                    after: Payloads<POut>)
    requires if inParallel then Stores(after, arena, id => NodeOut(pass, true, id, Entry(before, id)))
             else Stores(after, arena, id => NodeOut(pass, false, id, Entry(before, id)))
    ensures Stores(after, arena, id => NodeOut(pass, inParallel, id, Entry(before, id)))
  {
  }

  lemma NoPasses<T(!new)>(arena: seq<NodeId>, start: Payloads<T>)
    ensures Chained(start, arena, start, [], [])
  {
  }

  /** The last pass of a chain works on what the passes before it left at the node. */
  lemma LastPass<T>(passes: seq<Pass<T, T>>, parallel: seq<bool>, pass: Pass<T, T>, inParallel: bool, id: NodeId,
                    entry: Option<Option<T>>)
    requires |parallel| == |passes|
    ensures Composed([], [], id, entry) == entry
    ensures var before := Composed(passes, parallel, id, entry);
            Composed(passes + [pass], parallel + [inParallel], id, entry) ==
              Some(if inParallel then if before.Some? then pass.transform(id, before.value) else None
                   else pass.transform(id, if before.Some? && before.value.Some? then before.value
                                           else pass.fallback(id)))
  {
    assert (passes + [pass])[..|passes|] == passes && (parallel + [inParallel])[..|passes|] == parallel;
  }

  /** A chain of passes that hand their payload on returns every payload there is, under any schedule. */
  lemma {:induction false} ChainOfIdentities<T(!new)>(passes: seq<Pass<T, T>>, parallel: seq<bool>, id: NodeId,
                                                      payload: T)
    requires |parallel| == |passes| && forall pass, p: Option<T> | pass in passes :: pass.transform(id, p) == p
    ensures Composed(passes, parallel, id, Some(Some(payload))) == Some(Some(payload))
  {
    if passes != [] {
      var n := |passes| - 1;
      assert passes[n] in passes && forall pass | pass in passes[..n] :: pass in passes;
      ChainOfIdentities(passes[..n], parallel[..n], id, payload);
    }
  }

  /** Without fallbacks, no schedule changes what a chain makes of a node that has an entry. */
  lemma {:induction false} AnySchedule<T>(passes: seq<Pass<T, T>>, a: seq<bool>, b: seq<bool>, id: NodeId,
                                          payload: Option<T>)
    requires |a| == |b| == |passes| && forall pass | pass in passes :: pass.fallback(id) == None
    ensures Composed(passes, a, id, Some(payload)) == Composed(passes, b, id, Some(payload))
    ensures Composed(passes, a, id, Some(payload)).Some?
  {
    if passes != [] {
      var n := |passes| - 1;
      assert passes[n] in passes && forall pass | pass in passes[..n] :: pass in passes;
      AnySchedule(passes[..n], a[..n], b[..n], id, payload);
    }
  }
}
