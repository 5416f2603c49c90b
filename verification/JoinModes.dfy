/** The side list of join modes: collected in visiting order, and re-applied to a fresh tree by position. */
module JoinModes {

  datatype Mode = OneToMany | ManyToOne | OneToOne | ManyToMany

  /** A join gadget: its mode, and whether it still has its full stack of child gadgets. */
  class Gadget {
    var mode: Mode
    var full: bool

    constructor (mode: Mode)
      ensures this.mode == mode && full == mode.ManyToMany?
    {
      this.mode, full := mode, mode.ManyToMany?;
    }

    /** Leaving many-to-many drops the children for good. */
    method SetJoinMode(m: Mode)
      modifies this
      ensures mode == m && full == (old(full) && m.ManyToMany?)
    {
      mode := m;
      if !m.ManyToMany? {
        full := false;
      }
    }
  }

  /** Plan nodes, some of them joins, and gadget nodes with the children they may show. */
  datatype Node =
    | PlanNode(isJoin: bool, inputs: seq<Node>)
    | GadgetNode(gadget: Gadget, kids: seq<Node>)

  function Below(node: Node): seq<Node> {
    match node case PlanNode(_, inputs) => inputs case GadgetNode(_, kids) => kids
  }

  /** `children()`: a gadget shows its own only while it is many-to-many and full. */
  function Children(node: Node): seq<Node>
    reads if node.GadgetNode? then {node.gadget} else {}
  {
    match node
    case PlanNode(_, inputs) => inputs
    case GadgetNode(g, kids) => if g.mode.ManyToMany? && g.full then kids else []
  }

  // ---- which gadgets a tree holds ----

  /** Every gadget in the tree. */
  function Footprint(node: Node): (r: set<Gadget>)
    ensures node.GadgetNode? ==> node.gadget in r
    decreases node, 1
  {
    Inner(node) + if node.GadgetNode? then {node.gadget} else {}
  }

  /** Every gadget strictly below the node. */
  function Inner(node: Node): set<Gadget>
    decreases node, 0
  {
    FootprintOf(Below(node))
  }

  function FootprintOf(nodes: seq<Node>): (r: set<Gadget>)
    ensures forall i | 0 <= i < |nodes| :: Footprint(nodes[i]) <= r
    ensures forall g | g in r :: exists i | 0 <= i < |nodes| :: g in Footprint(nodes[i])
    decreases nodes
  {
    if nodes == [] then {}
    else
      var init, last := nodes[..|nodes| - 1], nodes[|nodes| - 1];
      FootprintOf(init) + Footprint(last)
  }

  /** No gadget occurs twice. */
  ghost predicate Separate(node: Node)
    decreases node
  {
    && (node.GadgetNode? ==> node.gadget !in Inner(node))
    && SeparateAll(Below(node))
  }

  ghost predicate SeparateAll(nodes: seq<Node>)
    decreases nodes
  {
    && (forall i | 0 <= i < |nodes| :: Separate(nodes[i]))
    && (forall i, j | 0 <= i < j < |nodes| :: Footprint(nodes[i]) !! Footprint(nodes[j]))
  }

  /** Every join has a join gadget among its children. */
  ghost predicate Equipped(node: Node)
    decreases node
  {
    && (node.PlanNode? && node.isJoin ==> exists i | 0 <= i < |node.inputs| :: node.inputs[i].GadgetNode?)
    && EquippedAll(Below(node))
  }

  ghost predicate EquippedAll(nodes: seq<Node>)
    decreases nodes
  {
    forall i | 0 <= i < |nodes| :: Equipped(nodes[i])
  }

  /** The gadgets of a tree at hand exist. */
  lemma {:induction false} HeldGadgets(nodes: seq<Node>)
    ensures forall g | g in FootprintOf(nodes) :: allocated(g)
    decreases nodes
  {
    if nodes != [] {
      var last := nodes[|nodes| - 1];
      HeldGadgets(nodes[..|nodes| - 1]);
      HeldGadgets(Below(last));
      assert Inner(last) == FootprintOf(Below(last));
      assert last.GadgetNode? ==> allocated(last.gadget);
      assert Footprint(last) == Inner(last) + if last.GadgetNode? then {last.gadget} else {};
      assert FootprintOf(nodes) == FootprintOf(nodes[..|nodes| - 1]) + Footprint(last);
    }
  }

  // ---- collecting ----

  /** The first join gadget's mode, and many-to-many without one. */
  function FirstMode(nodes: seq<Node>): Mode
    reads Direct(nodes)
  {
    if nodes == [] then ManyToMany
    else if nodes[0].GadgetNode? then nodes[0].gadget.mode
    else FirstMode(nodes[1..])
  }

  /** The mode is the one of the leftmost join gadget. */
  lemma {:induction false} FirstModeMeaning(nodes: seq<Node>, i: nat)
    requires i <= |nodes| && forall k | 0 <= k < i :: !nodes[k].GadgetNode?
    ensures i == |nodes| ==> FirstMode(nodes) == ManyToMany
    ensures i < |nodes| && nodes[i].GadgetNode? ==> FirstMode(nodes) == nodes[i].gadget.mode
  {
    if i > 0 {
      FirstModeMeaning(nodes[1..], i - 1);
    }
  }

  function OwnModes(node: Node): seq<Mode>
    reads Inner(node)
  {
    if node.PlanNode? && node.isJoin then
      GadgetsInside(node.inputs);
      [FirstMode(node.inputs)]
    else []
  }

  lemma GadgetsInside(nodes: seq<Node>)
    ensures Direct(nodes) <= FootprintOf(nodes)
  {
    forall c | c in nodes && c.GadgetNode? ensures c.gadget in FootprintOf(nodes) {
      var i :| 0 <= i < |nodes| && nodes[i] == c;
      assert Footprint(nodes[i]) <= FootprintOf(nodes);
    }
  }

  function Collected(node: Node): seq<Mode>
    reads Footprint(node)
    decreases node, 1
  {
    assert Inner(node) == FootprintOf(Below(node));
    if node.PlanNode? then OwnModes(node) + CollectedFrom(Below(node))
    else if node.gadget.mode.ManyToMany? && node.gadget.full then CollectedFrom(Below(node))
    else []
  }

  function CollectedFrom(nodes: seq<Node>): seq<Mode>
    reads FootprintOf(nodes)
    decreases nodes
  {
    if nodes == [] then []
    else CollectedFrom(nodes[..|nodes| - 1]) + Collected(nodes[|nodes| - 1])
  }

  ghost function Parts(nodes: seq<Node>): (r: seq<seq<Mode>>)
    reads FootprintOf(nodes)
    ensures |r| == |nodes| + 1 && forall k | 0 <= k <= |nodes| :: r[k] == CollectedFrom(nodes[..k])
  {
    if nodes == [] then [[]]
    else
      assert nodes[..|nodes|] == nodes;
      assert forall k | 0 <= k < |nodes| :: nodes[..|nodes| - 1][..k] == nodes[..k];
      Parts(nodes[..|nodes| - 1]) + [CollectedFrom(nodes)]
  }

  method CollectJoinModes(node: Node, before: seq<Mode>) returns (out: seq<Mode>)
    ensures out == before + old(Collected(node))
    decreases node, 1
  {
    hide Collected, CollectedFrom, Parts;
    CollectedSplit(node);
    ghost var own := OwnModes(node);
    var children := Children(node);
    ghost var parts := Parts(children);
    out := before;
    if node.PlanNode? && node.isJoin {
      out := out + [FirstMode(node.inputs)];
    }
    for i := 0 to |children|
      invariant out == before + own + parts[i] && |parts| == |children| + 1
      invariant forall k | 0 <= k <= |children| :: CollectedFrom(children[..k]) == parts[k]
    {
      CollectedStep(children, i);
      SeqAssoc(before, own, parts[i], Collected(children[i]));
      out := CollectNext(children, i, out);
    }
    assert children[..|children|] == children;
  }

  /** One child; collecting changes nothing. */
  method CollectNext(nodes: seq<Node>, i: nat, before: seq<Mode>) returns (out: seq<Mode>)
    requires i < |nodes|
    ensures out == before + old(Collected(nodes[i]))
    ensures forall k | 0 <= k <= |nodes| :: CollectedFrom(nodes[..k]) == old(CollectedFrom(nodes[..k]))
    decreases nodes, 0
  {
    forall k | 0 <= k <= |nodes| ensures forall g | g in FootprintOf(nodes[..k]) :: allocated(g) {
      HeldGadgets(nodes[..k]);
    }
    out := CollectJoinModes(nodes[i], before);
  }

  lemma CollectedSplit(node: Node)
    ensures Collected(node) == OwnModes(node) + CollectedFrom(Children(node))
    ensures CollectedFrom([]) == []
  {
  }

  lemma CollectedStep(nodes: seq<Node>, i: nat)
    requires i < |nodes|
    ensures CollectedFrom(nodes[..i + 1]) == CollectedFrom(nodes[..i]) + Collected(nodes[i])
  {
    assert nodes[..i + 1][..i] == nodes[..i];
  }

  lemma SeqAssoc<T>(a: seq<T>, b: seq<T>, c: seq<T>, d: seq<T>)
    ensures a + b + c + d == a + b + (c + d)
  {
  }

  // ---- applying ----

  /** The modes collected are the ones listed from `idx` on, as far as the list goes. */
  ghost predicate Follows(xs: seq<Mode>, modes: seq<Mode>, idx: nat, next: nat) {
    |xs| == next - idx && forall k | 0 <= k < |xs| && idx + k < |modes| :: xs[k] == modes[idx + k]
  }

  lemma FollowsAppend(xs: seq<Mode>, ys: seq<Mode>, modes: seq<Mode>, i: nat, j: nat, k: nat)
    requires Follows(xs, modes, i, j) && Follows(ys, modes, j, k)
    ensures Follows(xs + ys, modes, i, k)
  {
  }

  /** The gadgets among the nodes themselves. */
  function Direct(nodes: seq<Node>): set<Gadget> {
    set c | c in nodes && c.GadgetNode? :: c.gadget
  }

  /** Modes and stacks of some gadgets. */
  ghost function State(gs: set<Gadget>): map<Gadget, (Mode, bool)>
    reads gs
  {
    map g | g in gs :: (g.mode, g.full)
  }

  /** Each gadget once takes the mode; its stack survives only many-to-many. */
  method SetModes(nodes: seq<Node>, mode: Mode)
    modifies Direct(nodes)
    ensures var was := old(State(Direct(nodes)));
            forall g | g in Direct(nodes) :: g.mode == mode && g.full == (was[g].1 && mode.ManyToMany?)
  {
    ghost var was := State(Direct(nodes));
    for i := 0 to |nodes|
      invariant forall g | g in Direct(nodes) ::
                  (g.mode, g.full) == was[g] || (g.mode == mode && g.full == (was[g].1 && mode.ManyToMany?))
      invariant forall k | 0 <= k < i && nodes[k].GadgetNode? ::
                  nodes[k].gadget.mode == mode && nodes[k].gadget.full == (was[nodes[k].gadget].1 && mode.ManyToMany?)
    {
      if nodes[i].GadgetNode? {
        nodes[i].gadget.SetJoinMode(mode);
      }
    }
  }

  lemma {:induction false} FirstModeIs(nodes: seq<Node>, mode: Mode)
    requires exists i | 0 <= i < |nodes| :: nodes[i].GadgetNode?
    requires forall g | g in Direct(nodes) :: g.mode == mode
    ensures FirstMode(nodes) == mode
  {
    if nodes[0].GadgetNode? {
      assert nodes[0].gadget in Direct(nodes);
    } else {
      assert Direct(nodes[1..]) <= Direct(nodes);
      FirstModeIs(nodes[1..], mode);
    }
  }

  /** What visiting the nodes may change: the gadgets strictly below each of them. */
  function InnerOf(nodes: seq<Node>): set<Gadget> {
    set i, g | 0 <= i < |nodes| && g in Inner(nodes[i]) :: g
  }

  lemma InnerInside(nodes: seq<Node>)
    ensures InnerOf(nodes) <= FootprintOf(nodes)
  {
    forall g | g in InnerOf(nodes) ensures g in FootprintOf(nodes) {
      var i :| 0 <= i < |nodes| && g in Inner(nodes[i]);
      assert Footprint(nodes[i]) <= FootprintOf(nodes);
    }
  }

  /** Visiting the children leaves the gadgets among them alone, so a join's own mode stays. */
  lemma DirectGadgetsKept(nodes: seq<Node>)
    requires SeparateAll(nodes)
    ensures Direct(nodes) !! InnerOf(nodes)
  {
    hide Footprint, FootprintOf, Inner;
    forall i, j | 0 <= i < |nodes| && 0 <= j < |nodes| && nodes[i].GadgetNode?
      ensures nodes[i].gadget !in Inner(nodes[j])
    {
      assert Separate(nodes[i]);
      InnerInFootprint(nodes[j]);
      assert i < j ==> Footprint(nodes[i]) !! Footprint(nodes[j]);
      assert j < i ==> Footprint(nodes[j]) !! Footprint(nodes[i]);
    }
  }

  lemma InnerInFootprint(node: Node)
    ensures Inner(node) <= Footprint(node)
  {
  }

  /** The gadgets below a node are those among its children and those below these. */
  lemma BelowIsDirectAndInner(nodes: seq<Node>)
    ensures FootprintOf(nodes) == Direct(nodes) + InnerOf(nodes)
  {
    GadgetsInside(nodes);
    InnerInside(nodes);
    forall g | g in FootprintOf(nodes) ensures g in Direct(nodes) + InnerOf(nodes) {
      var i :| 0 <= i < |nodes| && g in Footprint(nodes[i]);
      if g !in Inner(nodes[i]) {
        assert nodes[i] in nodes;
      }
    }
  }

  // ---- what a walk changes ----

  /** The gadgets directly below the joins that a walk reaches. */
  ghost function Held(node: Node): (r: set<Gadget>)
    reads Footprint(node)
    ensures r <= Inner(node)
    decreases node, 1
  {
    assert Inner(node) == FootprintOf(Below(node));
    BelowIsDirectAndInner(Below(node));
    if node.PlanNode? then (if node.isJoin then Direct(node.inputs) else {}) + HeldOf(node.inputs)
    else if node.gadget.mode.ManyToMany? && node.gadget.full then HeldOf(node.kids)
    else {}
  }

  ghost function HeldOf(nodes: seq<Node>): (r: set<Gadget>)
    reads FootprintOf(nodes)
    ensures r <= InnerOf(nodes)
    decreases nodes
  {
    if nodes == [] then {}
    else
      InnerNext(nodes, |nodes| - 1);
      assert nodes[..|nodes| - 1 + 1] == nodes;
      HeldOf(nodes[..|nodes| - 1]) + Held(nodes[|nodes| - 1])
  }

  lemma InnerNext(nodes: seq<Node>, i: nat)
    requires i < |nodes|
    ensures InnerOf(nodes[..i + 1]) == InnerOf(nodes[..i]) + Inner(nodes[i])
  {
    hide Inner;
    assert forall g | g in InnerOf(nodes[..i]) :: g in InnerOf(nodes[..i + 1]) by {
      forall g | g in InnerOf(nodes[..i]) ensures g in InnerOf(nodes[..i + 1]) {
        var k :| 0 <= k < i && g in Inner(nodes[..i][k]);
        assert g in Inner(nodes[..i + 1][k]);
      }
    }
    assert nodes[..i + 1][i] == nodes[i];
    forall g | g in InnerOf(nodes[..i + 1]) ensures g in InnerOf(nodes[..i]) + Inner(nodes[i]) {
      var k :| 0 <= k < i + 1 && g in Inner(nodes[..i + 1][k]);
      if k < i {
        assert g in Inner(nodes[..i][k]);
      }
    }
  }

  /**
   * What a walk has done to `all`: a gadget it holds has a stack exactly if it had one and is many-to-many now, unless
   * the list ran out before it; every other gadget is as it was.
   */
  ghost predicate Settled(all: set<Gadget>, held: set<Gadget>, was: map<Gadget, (Mode, bool)>, ranOut: bool)
    requires all <= was.Keys
    reads all
  {
    forall g | g in all ::
      || (g in held && g.full == (was[g].1 && g.mode.ManyToMany?))
      || ((g in held ==> ranOut) && (g.mode, g.full) == was[g])
  }

  lemma SettledTogether(a: set<Gadget>, heldA: set<Gadget>, wasA: map<Gadget, (Mode, bool)>, earlier: bool,
                        b: set<Gadget>, heldB: set<Gadget>, wasB: map<Gadget, (Mode, bool)>, later: bool,
                        was: map<Gadget, (Mode, bool)>)
    requires a <= wasA.Keys && Settled(a, heldA, wasA, earlier) && heldA <= a
    requires b <= wasB.Keys && Settled(b, heldB, wasB, later) && heldB <= b
    requires a !! b && (earlier ==> later) && a + b <= was.Keys
    requires (forall g | g in a :: wasA[g] == was[g]) && forall g | g in b :: wasB[g] == was[g]
    ensures Settled(a + b, heldA + heldB, was, later)
  {
  }

  /** Gadgets that are not touched are settled, held or not, if nothing of them is. */
  lemma SettledUntouched(all: set<Gadget>, held: set<Gadget>, was: map<Gadget, (Mode, bool)>, ranOut: bool)
    requires all <= was.Keys && (forall g | g in all :: (g.mode, g.full) == was[g])
    requires held !! all || ranOut
    ensures Settled(all, held, was, ranOut)
  {
  }

  /** A join takes the next mode for its gadgets before anything below it is visited. */
  method ApplyJoinModes(node: Node, modes: seq<Mode>, idx: nat) returns (next: nat)
    requires Separate(node) && Equipped(node)
    modifies Inner(node)
    ensures Follows(Collected(node), modes, idx, next)
    ensures Settled(Inner(node), Held(node), old(State(Inner(node))), next > |modes|)
    decreases node, 1
  {
    hide Footprint, FootprintOf, InnerOf, SeparateAll, EquippedAll, CollectedFrom, FirstMode, HeldOf, Settled, Direct;
    var nodes := Below(node);
    InnerInside(nodes);
    DirectGadgetsKept(nodes);
    BelowIsDirectAndInner(nodes);
    assert Inner(node) == Direct(nodes) + InnerOf(nodes);
    ghost var was := State(Inner(node));
    next := idx;
    if node.PlanNode? {
      GadgetsInside(node.inputs);
      if node.isJoin {
        if next < |modes| {
          SetModes(node.inputs, modes[next]);
          AllSet(node.inputs, modes[next], was);
          FirstModeIs(node.inputs, modes[next]);
        } else {
          SettledUntouched(Direct(nodes), Direct(nodes), was, true);
        }
        next := next + 1;
      } else {
        SettledUntouched(Direct(nodes), {}, was, next > |modes|);
      }
      ghost var direct := if node.isJoin then Direct(nodes) else {};
      ghost var first, middle, mid := FirstMode(node.inputs), next, State(InnerOf(nodes));
      assert Settled(Direct(nodes), direct, was, middle > |modes|);
      next := ApplyToAll(node.inputs, modes, next);
      assert FirstMode(node.inputs) == first;
      FollowsAppend(OwnModes(node), CollectedFrom(node.inputs), modes, idx, middle, next);
      SettledTogether(Direct(nodes), direct, was, middle > |modes|,
                      InnerOf(nodes), HeldOf(nodes), mid, next > |modes|, was);
      assert Held(node) == direct + HeldOf(nodes);
    } else {
      SettledUntouched(Direct(nodes), {}, was, next > |modes|);
      if node.gadget.mode.ManyToMany? && node.gadget.full {
        ghost var mid := State(InnerOf(nodes));
        next := ApplyToAll(node.kids, modes, next);
        assert Collected(node) == CollectedFrom(node.kids);
        SettledTogether(Direct(nodes), {}, was, idx > |modes|, InnerOf(nodes), HeldOf(nodes), mid, next > |modes|, was);
        assert Held(node) == {} + HeldOf(nodes);
      } else {
        SettledUntouched(Inner(node), {}, was, next > |modes|);
      }
    }
  }

  lemma AllSet(nodes: seq<Node>, mode: Mode, was: map<Gadget, (Mode, bool)>)
    requires Direct(nodes) <= was.Keys
    requires forall g | g in Direct(nodes) :: g.mode == mode && g.full == (was[g].1 && mode.ManyToMany?)
    ensures Settled(Direct(nodes), Direct(nodes), was, false)
  {
  }

  method ApplyToAll(nodes: seq<Node>, modes: seq<Mode>, idx: nat) returns (next: nat)
    requires SeparateAll(nodes) && EquippedAll(nodes)
    modifies InnerOf(nodes)
    ensures Follows(CollectedFrom(nodes), modes, idx, next)
    ensures Settled(InnerOf(nodes), HeldOf(nodes), old(State(InnerOf(nodes))), next > |modes|)
    decreases nodes, 1
  {
    hide Inner, Separate, Equipped, Collected, CollectedFrom, FootprintOf, InnerOf, HeldOf, Held, Settled, SeparateAll,
         EquippedAll;
    ghost var was := State(InnerOf(nodes));
    next := idx;
    NothingCollected(modes, idx);
    NothingHeld();
    SettledUntouched({}, {}, was, next > |modes|);
    for i := 0 to |nodes|
      invariant Follows(CollectedFrom(nodes[..i]), modes, idx, next)
      invariant InnerOf(nodes[..i]) <= InnerOf(nodes)
      invariant Settled(InnerOf(nodes[..i]), HeldOf(nodes[..i]), was, next > |modes|)
      invariant forall g | g in InnerOf(nodes) - InnerOf(nodes[..i]) :: (g.mode, g.full) == was[g]
    {
      ghost var earlier, middle := CollectedFrom(nodes[..i]), next;
      InnerNext(nodes, i);
      InnerNextInside(nodes, i);
      EarlierApart(nodes, i);
      InnerInside(nodes[..i]);
      ghost var mid := State(Inner(nodes[i]));
      next := ApplyNext(nodes, i, modes, next);
      CollectedStep(nodes, i);
      FollowsAppend(earlier, Collected(nodes[i]), modes, idx, middle, next);
      SettledTogether(InnerOf(nodes[..i]), HeldOf(nodes[..i]), was, middle > |modes|,
                      Inner(nodes[i]), Held(nodes[i]), mid, next > |modes|, was);
      HeldStep(nodes, i);
    }
    assert nodes[..|nodes|] == nodes;
  }

  lemma NothingHeld()
    ensures InnerOf([]) == {} && HeldOf([]) == {}
  {
  }

  lemma InnerNextInside(nodes: seq<Node>, i: nat)
    requires i < |nodes|
    ensures Inner(nodes[i]) <= InnerOf(nodes)
  {
  }

  lemma HeldStep(nodes: seq<Node>, i: nat)
    requires i < |nodes|
    ensures HeldOf(nodes[..i + 1]) == HeldOf(nodes[..i]) + Held(nodes[i])
  {
    assert nodes[..i + 1][..i] == nodes[..i];
  }

  /** One child; the ones before it keep their modes. */
  method ApplyNext(nodes: seq<Node>, i: nat, modes: seq<Mode>, idx: nat) returns (next: nat)
    requires SeparateAll(nodes) && EquippedAll(nodes) && i < |nodes|
    modifies Inner(nodes[i])
    ensures Follows(Collected(nodes[i]), modes, idx, next)
    ensures Settled(Inner(nodes[i]), Held(nodes[i]), old(State(Inner(nodes[i]))), next > |modes|)
    ensures CollectedFrom(nodes[..i]) == old(CollectedFrom(nodes[..i]))
    ensures HeldOf(nodes[..i]) == old(HeldOf(nodes[..i]))
    decreases nodes, 0
  {
    hide HeldOf, Settled, State, Inner, Separate, Equipped, Collected, CollectedFrom, InnerOf;
    EarlierApart(nodes, i);
    HeldGadgets(nodes[..i]);
    next := ApplyJoinModes(nodes[i], modes, idx);
  }

  lemma NothingCollected(modes: seq<Mode>, idx: nat)
    ensures Follows(CollectedFrom([]), modes, idx, idx)
  {
  }

  lemma EarlierApart(nodes: seq<Node>, i: nat)
    requires SeparateAll(nodes) && i < |nodes|
    ensures FootprintOf(nodes[..i]) !! Inner(nodes[i])
  {
    forall g | g in FootprintOf(nodes[..i]) ensures g !in Inner(nodes[i]) {
      var k :| 0 <= k < i && g in Footprint(nodes[..i][k]);
      assert Footprint(nodes[k]) !! Footprint(nodes[i]);
    }
  }

  // ---- from one tree to a fresh tree of the same plan ----

  /** Joins among the plan nodes. */
  function JoinCount(node: Node): nat
    decreases node
  {
    if node.PlanNode? then (if node.isJoin then 1 else 0) + JoinCountOf(node.inputs) else 0
  }

  function JoinCountOf(nodes: seq<Node>): nat
    decreases nodes
  {
    if nodes == [] then 0 else JoinCountOf(nodes[..|nodes| - 1]) + JoinCount(nodes[|nodes| - 1])
  }

  /** What gadgets hold below them contains no joins. */
  ghost predicate GadgetsJoinFree(node: Node)
    decreases node
  {
    && (node.GadgetNode? ==> JoinCountOf(node.kids) == 0)
    && forall i | 0 <= i < |Below(node)| :: GadgetsJoinFree(Below(node)[i])
  }

  /** Then the number of modes does not depend on what the gadgets show. */
  lemma {:induction false} CollectedLength(node: Node)
    requires GadgetsJoinFree(node)
    ensures |Collected(node)| == JoinCount(node)
    decreases node, 1
  {
    CollectedFromLength(Below(node));
  }

  lemma {:induction false} CollectedFromLength(nodes: seq<Node>)
    requires forall i | 0 <= i < |nodes| :: GadgetsJoinFree(nodes[i])
    ensures |CollectedFrom(nodes)| == JoinCountOf(nodes)
    decreases nodes, 0
  {
    if nodes != [] {
      CollectedFromLength(nodes[..|nodes| - 1]);
      CollectedLength(nodes[|nodes| - 1]);
    }
  }

  /** The same plan nodes in the same places, whatever the gadgets. */
  ghost predicate SamePlan(a: Node, b: Node)
    decreases a
  {
    && (a.PlanNode? <==> b.PlanNode?)
    && (a.PlanNode? ==>
          && a.isJoin == b.isJoin && |a.inputs| == |b.inputs|
          && forall i | 0 <= i < |a.inputs| :: SamePlan(a.inputs[i], b.inputs[i]))
  }

  lemma {:induction false} SamePlanCount(a: Node, b: Node)
    requires SamePlan(a, b)
    ensures JoinCount(a) == JoinCount(b)
    decreases a, 1
  {
    if a.PlanNode? {
      SamePlanCountOf(a.inputs, b.inputs);
    }
  }

  lemma {:induction false} SamePlanCountOf(xs: seq<Node>, ys: seq<Node>)
    requires |xs| == |ys| && forall i | 0 <= i < |xs| :: SamePlan(xs[i], ys[i])
    ensures JoinCountOf(xs) == JoinCountOf(ys)
    decreases xs, 0
  {
    if xs != [] {
      SamePlanCountOf(xs[..|xs| - 1], ys[..|ys| - 1]);
      SamePlanCount(xs[|xs| - 1], ys[|ys| - 1]);
    }
  }

  /** As trees are built: every gadget is many-to-many and has its children. */
  ghost predicate Fresh(node: Node)
    reads Inner(node)
  {
    forall g | g in Inner(node) :: g.full && g.mode.ManyToMany?
  }

  /** Gadgets below the node show their children exactly when they are many-to-many. */
  ghost predicate ShownByMode(node: Node)
    reads Inner(node)
  {
    forall g | g in Inner(node) :: g.full <==> g.mode.ManyToMany?
  }

  /** Collecting from one tree and applying to a fresh tree of the same plan makes the two collect alike. */
  method ReplayJoinModes(source: Node, target: Node) returns (modes: seq<Mode>, next: nat)
    requires SamePlan(source, target) && GadgetsJoinFree(source) && GadgetsJoinFree(target)
    requires Separate(target) && Equipped(target)
    modifies Inner(target)
    ensures modes == old(Collected(source)) && Collected(target) == modes
    ensures next == |modes| == JoinCount(source)
    ensures Settled(Inner(target), Held(target), old(State(Inner(target))), false)
    ensures old(Fresh(target)) ==> ShownByMode(target)
  {
    hide Collected, Held, Inner, Separate, Equipped, GadgetsJoinFree, SamePlan, JoinCount, Settled, ShownByMode, Fresh,
         State;
    CollectedLength(source);
    SamePlanCount(source, target);
    FreshState(target);
    HeldBelow(target);
    modes := CollectJoinModes(source, []);
    assert State(Inner(target)) == old(State(Inner(target)));
    next := ApplyJoinModes(target, modes, 0);
    CollectedLength(target);
    assert !(next > |modes|);
    if old(Fresh(target)) {
      FreshShown(target, old(State(Inner(target))));
    }
  }

  lemma HeldBelow(node: Node)
    ensures forall g | g in Inner(node) :: allocated(g)
  {
    HeldGadgets(Below(node));
  }

  lemma FreshState(node: Node)
    ensures State(Inner(node)).Keys == Inner(node)
    ensures Fresh(node) ==> forall g | g in Inner(node) :: State(Inner(node))[g] == (ManyToMany, true)
  {
  }

  lemma FreshShown(node: Node, was: map<Gadget, (Mode, bool)>)
    requires was.Keys == Inner(node) && forall g | g in Inner(node) :: was[g] == (ManyToMany, true)
    requires Settled(Inner(node), Held(node), was, false)
    ensures ShownByMode(node)
  {
  }
}
