/** The arena of an IR: every node reachable from the root, once, children before parents. */
module Arena {

  type NodeId = nat

  /** Shared nodes by id. The rank witnesses that no node is its own descendant. */
  datatype Dag = Dag(children: NodeId -> seq<NodeId>, rank: NodeId -> nat) {
    ghost predicate Acyclic() {
      forall n, c | c in children(n) :: rank(c) < rank(n)
    }
  }

  /** A walk along children from `path[0]`. */
  ghost predicate IsPath(dag: Dag, path: seq<NodeId>) {
    path != [] && forall i | 0 <= i < |path| - 1 :: path[i + 1] in dag.children(path[i])
  }

  ghost predicate Reaches(dag: Dag, a: NodeId, b: NodeId) {
    exists path :: IsPath(dag, path) && path[0] == a && path[|path| - 1] == b
  }

  lemma ReachesSelf(dag: Dag, a: NodeId)
    ensures Reaches(dag, a, a)
  {
    assert IsPath(dag, [a]);
  }

  lemma ReachesThroughChild(dag: Dag, a: NodeId, c: NodeId, b: NodeId)
    requires c in dag.children(a) && Reaches(dag, c, b)
    ensures Reaches(dag, a, b)
  {
    var path :| IsPath(dag, path) && path[0] == c && path[|path| - 1] == b;
    assert IsPath(dag, [a] + path);
  }

  lemma ReachesCases(dag: Dag, a: NodeId, b: NodeId)
    requires Reaches(dag, a, b) && a != b
    ensures exists c | c in dag.children(a) :: Reaches(dag, c, b)
  {
    var path :| IsPath(dag, path) && path[0] == a && path[|path| - 1] == b;
    var rest := path[1..];
    assert IsPath(dag, rest) by {
      forall i | 0 <= i < |rest| - 1 ensures rest[i + 1] in dag.children(rest[i]) {
        assert path[i + 2] in dag.children(path[i + 1]);
      }
    }
    assert path[0 + 1] in dag.children(path[0]);
    assert Reaches(dag, path[1], b);
  }

  /** Descendants rank strictly lower. */
  lemma {:induction false} ReachesDown(dag: Dag, a: NodeId, b: NodeId)
    requires dag.Acyclic() && Reaches(dag, a, b) && a != b
    ensures dag.rank(b) < dag.rank(a)
    decreases dag.rank(a)
  {
    ReachesCases(dag, a, b);
    var c :| c in dag.children(a) && Reaches(dag, c, b);
    if c != b {
      ReachesDown(dag, c, b);
    }
  }

  ghost predicate Distinct(order: seq<NodeId>) {
    forall i, j | 0 <= i < j < |order| :: order[i] != order[j]
  }

  /** Every child of a listed node is listed before it. */
  ghost predicate ChildrenFirst(dag: Dag, order: seq<NodeId>) {
    forall k, c | 0 <= k < |order| && c in dag.children(order[k]) :: c in order[..k]
  }

  // ---- the order of insertion ----

  /** Post-order over the unfolded graph, children from left to right: shared nodes come once for every way to them. */
  function PostUnfolding(dag: Dag, node: NodeId): seq<NodeId>
    requires dag.Acyclic()
    decreases dag.rank(node), 1, 0
  {
    PostUnfoldingAll(dag, node, |dag.children(node)|) + [node]
  }

  function PostUnfoldingAll(dag: Dag, node: NodeId, k: nat): seq<NodeId>
    requires dag.Acyclic() && k <= |dag.children(node)|
    decreases dag.rank(node), 0, k
  {
    if k == 0 then []
    else
      assert dag.children(node)[k - 1] in dag.children(node);
      PostUnfoldingAll(dag, node, k - 1) + PostUnfolding(dag, dag.children(node)[k - 1])
  }

  /** Children from left to right: what comes before a child's own post-order is that of the children before it. */
  lemma {:induction false} SiblingsInOrder(dag: Dag, node: NodeId, i: nat, k: nat)
    requires dag.Acyclic() && i < k <= |dag.children(node)|
    ensures dag.rank(dag.children(node)[i]) < dag.rank(node)
    ensures PostUnfoldingAll(dag, node, i) + PostUnfolding(dag, dag.children(node)[i]) <= PostUnfoldingAll(dag, node, k)
    decreases k
  {
    assert dag.children(node)[i] in dag.children(node);
    if i < k - 1 {
      SiblingsInOrder(dag, node, i, k - 1);
      assert PostUnfoldingAll(dag, node, k - 1) <= PostUnfoldingAll(dag, node, k);
    }
  }

  /** Inserting one after another, where what is there already stays in place. */
  function Inserted(order: seq<NodeId>, xs: seq<NodeId>): seq<NodeId> {
    if xs == [] then order
    else
      var before, x := Inserted(order, xs[..|xs| - 1]), xs[|xs| - 1];
      if x in before then before else before + [x]
  }

  lemma {:induction false} InsertedSplit(order: seq<NodeId>, xs: seq<NodeId>, ys: seq<NodeId>)
    ensures Inserted(order, xs + ys) == Inserted(Inserted(order, xs), ys)
  {
    if ys == [] {
      assert xs + ys == xs;
    } else {
      var init := ys[..|ys| - 1];
      assert (xs + ys)[..|xs + ys| - 1] == xs + init;
      InsertedSplit(order, xs, init);
    }
  }

  lemma {:induction false} InsertedKnown(order: seq<NodeId>, xs: seq<NodeId>)
    requires forall x | x in xs :: x in order
    ensures Inserted(order, xs) == order
  {
    if xs != [] {
      InsertedKnown(order, xs[..|xs| - 1]);
      assert xs[|xs| - 1] in xs;
    }
  }

  lemma {:induction false} PostUnfoldingReached(dag: Dag, node: NodeId, n: NodeId)
    requires dag.Acyclic() && n in PostUnfolding(dag, node)
    ensures Reaches(dag, node, n)
    decreases dag.rank(node), 1, 0
  {
    NodeReach(dag, node);
    if n != node {
      PostUnfoldingAllReached(dag, node, |dag.children(node)|, n);
    }
  }

  lemma {:induction false} PostUnfoldingAllReached(dag: Dag, node: NodeId, k: nat, n: NodeId)
    requires dag.Acyclic() && k <= |dag.children(node)| && n in PostUnfoldingAll(dag, node, k)
    ensures ReachedFrom(dag, dag.children(node), n)
    decreases dag.rank(node), 0, k
  {
    var child := dag.children(node)[k - 1];
    assert child in dag.children(node);
    if n in PostUnfoldingAll(dag, node, k - 1) {
      PostUnfoldingAllReached(dag, node, k - 1, n);
    } else {
      PostUnfoldingReached(dag, child, n);
    }
  }

  lemma VisitKnown(dag: Dag, order: seq<NodeId>, node: NodeId)
    requires dag.Acyclic() && ChildrenFirst(dag, order) && node in order
    ensures Inserted(order, PostUnfolding(dag, node)) == order
  {
    ListedReach(dag, order, node);
    forall n | n in PostUnfolding(dag, node) ensures n in order {
      PostUnfoldingReached(dag, node, n);
    }
    InsertedKnown(order, PostUnfolding(dag, node));
  }

  lemma VisitNext(dag: Dag, before: seq<NodeId>, node: NodeId, i: nat)
    requires dag.Acyclic() && i < |dag.children(node)|
    ensures dag.rank(dag.children(node)[i]) < dag.rank(node)
    ensures Inserted(before, PostUnfoldingAll(dag, node, i + 1))
         == Inserted(Inserted(before, PostUnfoldingAll(dag, node, i)), PostUnfolding(dag, dag.children(node)[i]))
  {
    assert dag.children(node)[i] in dag.children(node);
    InsertedSplit(before, PostUnfoldingAll(dag, node, i), PostUnfolding(dag, dag.children(node)[i]));
  }

  lemma NothingInserted(dag: Dag, before: seq<NodeId>, node: NodeId)
    requires dag.Acyclic()
    ensures Inserted(before, PostUnfoldingAll(dag, node, 0)) == before
  {
  }

  lemma VisitLast(dag: Dag, before: seq<NodeId>, node: NodeId)
    requires dag.Acyclic()
    ensures var rest := Inserted(before, PostUnfoldingAll(dag, node, |dag.children(node)|));
            node !in rest ==> Inserted(before, PostUnfolding(dag, node)) == rest + [node]
  {
    var rest := PostUnfoldingAll(dag, node, |dag.children(node)|);
    assert (rest + [node])[..|rest|] == rest;
  }

  /** The keys of the insertion-ordered map, in insertion order. */
  class Builder {
    var order: seq<NodeId>

    constructor ()
      ensures order == []
    {
      order := [];
    }

    method Visit(dag: Dag, node: NodeId)
      requires dag.Acyclic() && Distinct(order) && ChildrenFirst(dag, order)
      modifies this
      ensures Distinct(order) && ChildrenFirst(dag, order) && old(order) <= order
      ensures forall n :: n in order <==> n in old(order) || Reaches(dag, node, n)
      ensures node in old(order) ==> order == old(order)
      ensures node !in old(order) ==> order != [] && order[|order| - 1] == node
      ensures order == Inserted(old(order), PostUnfolding(dag, node))
      decreases dag.rank(node)
    {
      hide PostUnfolding, PostUnfoldingAll, Inserted;
      if node in order {
        ListedReach(dag, order, node);
        VisitKnown(dag, order, node);
        return;
      }
      var kids := dag.children(node);
      NothingInserted(dag, order, node);
      for i := 0 to |kids|
        invariant order == Inserted(old(order), PostUnfoldingAll(dag, node, i))
        invariant Distinct(order) && ChildrenFirst(dag, order) && old(order) <= order
        invariant forall n :: n in order <==> n in old(order) || ReachedFrom(dag, kids[..i], n)
      {
        VisitNext(dag, old(order), node, i);
        Visit(dag, kids[i]);
        MoreReached(dag, kids, i);
      }
      assert kids[..|kids|] == kids;
      NodeUnlisted(dag, node, old(order), order);
      ListNext(dag, order, node);
      VisitLast(dag, old(order), node);
      order := order + [node];
      NodeReach(dag, node);
    }
  }

  ghost predicate ReachedFrom(dag: Dag, starts: seq<NodeId>, n: NodeId) {
    exists c | c in starts :: Reaches(dag, c, n)
  }

  lemma MoreReached(dag: Dag, kids: seq<NodeId>, i: nat)
    requires i < |kids|
    ensures forall n ::
              ReachedFrom(dag, kids[..i + 1], n) <==> ReachedFrom(dag, kids[..i], n) || Reaches(dag, kids[i], n)
  {
    assert kids[..i + 1] == kids[..i] + [kids[i]];
  }

  /** A node may be listed once its children are. */
  lemma ListNext(dag: Dag, order: seq<NodeId>, node: NodeId)
    requires ChildrenFirst(dag, order)
    requires forall n | ReachedFrom(dag, dag.children(node), n) :: n in order
    ensures ChildrenFirst(dag, order + [node])
  {
    var after := order + [node];
    forall k, c | 0 <= k < |after| && c in dag.children(after[k]) ensures c in after[..k] {
      if k < |order| {
        assert after[..k] == order[..k];
      } else {
        assert after[..k] == order;
        ReachesSelf(dag, c);
        assert ReachedFrom(dag, dag.children(node), c);
      }
    }
  }

  lemma NodeReach(dag: Dag, node: NodeId)
    ensures forall n :: Reaches(dag, node, n) <==> n == node || ReachedFrom(dag, dag.children(node), n)
  {
    forall n ensures Reaches(dag, node, n) <==> n == node || ReachedFrom(dag, dag.children(node), n) {
      ReachesSelf(dag, node);
      if Reaches(dag, node, n) && n != node {
        ReachesCases(dag, node, n);
      }
      if ReachedFrom(dag, dag.children(node), n) {
        var c :| c in dag.children(node) && Reaches(dag, c, n);
        ReachesThroughChild(dag, node, c, n);
      }
    }
  }

  /** Visiting the children lists no ancestor. */
  lemma NodeUnlisted(dag: Dag, node: NodeId, before: seq<NodeId>, after: seq<NodeId>)
    requires dag.Acyclic() && node !in before
    requires forall n | n in after :: n in before || ReachedFrom(dag, dag.children(node), n)
    ensures node !in after
  {
    if ReachedFrom(dag, dag.children(node), node) {
      var c :| c in dag.children(node) && Reaches(dag, c, node);
      if c != node {
        ReachesDown(dag, c, node);
      }
    }
  }

  /** Everything a listed node reaches is listed no later. */
  lemma {:induction false} ListedDescendants(dag: Dag, order: seq<NodeId>, k: nat, n: NodeId)
    requires dag.Acyclic() && ChildrenFirst(dag, order) && k < |order| && Reaches(dag, order[k], n)
    ensures n in order[..k + 1]
    ensures n != order[k] ==> n in order[..k]
    decreases k
  {
    if n != order[k] {
      ReachesCases(dag, order[k], n);
      var c :| c in dag.children(order[k]) && Reaches(dag, c, n);
      var j :| 0 <= j < k && order[j] == c;
      ListedDescendants(dag, order, j, n);
      assert order[..j + 1] <= order[..k];
    }
  }

  lemma ListedReach(dag: Dag, order: seq<NodeId>, node: NodeId)
    requires dag.Acyclic() && ChildrenFirst(dag, order) && node in order
    ensures forall n | Reaches(dag, node, n) :: n in order
  {
    var k :| 0 <= k < |order| && order[k] == node;
    forall n | Reaches(dag, node, n) ensures n in order {
      ListedDescendants(dag, order, k, n);
    }
  }

  /** What an arena is for its root: the reachable nodes, once each, descendants first. */
  ghost predicate IsArena(dag: Dag, root: NodeId, order: seq<NodeId>) {
    && Distinct(order)
    && (forall n :: n in order <==> Reaches(dag, root, n))
    && (forall i, j | 0 <= i < |order| && 0 <= j < |order| && i != j && Reaches(dag, order[i], order[j]) :: j < i)
    && order != [] && order[|order| - 1] == root
  }

  method BuildArena(dag: Dag, root: NodeId) returns (order: seq<NodeId>)
    requires dag.Acyclic()
    ensures IsArena(dag, root, order)
    ensures order == Inserted([], PostUnfolding(dag, root))
  {
    hide Inserted, PostUnfolding;
    var builder := new Builder();
    builder.Visit(dag, root);
    order := builder.order;
    ReachesSelf(dag, root);
    forall i, j | 0 <= i < |order| && 0 <= j < |order| && i != j && Reaches(dag, order[i], order[j]) ensures j < i {
      ListedDescendants(dag, order, i, order[j]);
    }
  }
}
