/** The WBS list view: the tree flattened against the set of expanded node ids, the store
    of expanded ids with its operations, and the graph/WBS view-mode switch. */
module WbsView {
  import opened Text
  import opened WbsStore
  import opened WbsProperties

  /** The flattened view of a forest: each node is listed (in pre-order) when its parent
      level is visible, and a node's children are visible when it is visible and expanded. */
  function Flat(nodes: seq<WbsNode>, parentExpanded: bool, expanded: set<string>): (r: seq<WbsNode>)
    ensures |r| > 0 ==> parentExpanded
    decreases nodes
  {
    if nodes == [] then []
    else
      var node := nodes[|nodes| - 1];
      Flat(nodes[..|nodes| - 1], parentExpanded, expanded) +
      (if parentExpanded then [node] else []) +
      (if |node.children| > 0 then Flat(node.children, parentExpanded && node.id in expanded, expanded) else [])
  }

  /** The flatten walk, pushing onto `acc`. */
  method FlattenInto(nodes: seq<WbsNode>, parentExpanded: bool, expanded: set<string>, acc: seq<WbsNode>)
    returns (result: seq<WbsNode>)
    ensures result == acc + Flat(nodes, parentExpanded, expanded)
    decreases nodes
  {
    result := acc;
    var i := 0;
    assert nodes[..0] == [];
    while i < |nodes|
      invariant i <= |nodes|
      invariant result == acc + Flat(nodes[..i], parentExpanded, expanded)
    {
      var node := nodes[i];
      FlatStep(nodes, i, parentExpanded, expanded);
      ghost var done := Flat(nodes[..i], parentExpanded, expanded);
      ghost var self := if parentExpanded then [node] else [];
      ghost var below := if |node.children| > 0 then Flat(node.children, parentExpanded && node.id in expanded, expanded) else [];
      if parentExpanded {
        result := result + [node];
      }
      assert result == acc + done + self;
      if |node.children| > 0 {
        var isExpanded := node.id in expanded;
        result := FlattenInto(node.children, parentExpanded && isExpanded, expanded, result);
      }
      assert result == acc + done + self + below;
      AppendAssoc(acc, done, self, below);
      i := i + 1;
    }
    assert nodes[..i] == nodes;
  }

  /** One more node of the sibling list: its own entry, then its flattened subtree. */
  lemma FlatStep(nodes: seq<WbsNode>, i: nat, parentExpanded: bool, expanded: set<string>)
    requires i < |nodes|
    ensures Flat(nodes[..i + 1], parentExpanded, expanded) ==
            Flat(nodes[..i], parentExpanded, expanded) +
            (if parentExpanded then [nodes[i]] else []) +
            (if |nodes[i].children| > 0 then Flat(nodes[i].children, parentExpanded && nodes[i].id in expanded, expanded) else [])
  {
    assert nodes[..i + 1][..i] == nodes[..i];
    assert nodes[..i + 1][i] == nodes[i];
  }

  lemma AppendAssoc(a: seq<WbsNode>, b: seq<WbsNode>, c: seq<WbsNode>, d: seq<WbsNode>)
    ensures a + b + c + d == a + (b + c + d)
  {
  }

  /** Every node of a forest, in pre-order, paired with the ids of its strict ancestors. */
  function Walk(nodes: seq<WbsNode>, ancestors: seq<string>): seq<(WbsNode, seq<string>)>
    decreases nodes
  {
    if nodes == [] then []
    else
      var node := nodes[|nodes| - 1];
      Walk(nodes[..|nodes| - 1], ancestors) + [(node, ancestors)] + Walk(node.children, ancestors + [node.id])
  }

  predicate AllExpanded(ids: seq<string>, expanded: set<string>)
  {
    forall i :: 0 <= i < |ids| ==> ids[i] in expanded
  }

  /** The nodes of a walk whose ancestors are all expanded, in walk order. */
  function Shown(w: seq<(WbsNode, seq<string>)>, expanded: set<string>): seq<WbsNode>
  {
    if w == [] then []
    else
      var e := w[|w| - 1];
      Shown(w[..|w| - 1], expanded) + (if AllExpanded(e.1, expanded) then [e.0] else [])
  }

  lemma {:induction false} ShownAppend(a: seq<(WbsNode, seq<string>)>, b: seq<(WbsNode, seq<string>)>, expanded: set<string>)
    ensures Shown(a + b, expanded) == Shown(a, expanded) + Shown(b, expanded)
    decreases |b|
  {
    if b == [] {
      assert a + b == a;
    } else {
      assert (a + b)[..|a + b| - 1] == a + b[..|b| - 1];
      ShownAppend(a, b[..|b| - 1], expanded);
    }
  }

  lemma {:induction false} ShownOfChildless(ancestors: seq<string>, expanded: set<string>)
    ensures Shown(Walk([], ancestors), expanded) == []
  {
  }

  /** The flattened view lists exactly the nodes all of whose strict ancestors are
      expanded, in pre-order; the roots are always listed. */
  lemma {:induction false} FlatShowsExpandedDescendants(nodes: seq<WbsNode>, ancestors: seq<string>,
                                                        parentExpanded: bool, expanded: set<string>)
    requires parentExpanded <==> AllExpanded(ancestors, expanded)
    ensures Flat(nodes, parentExpanded, expanded) == Shown(Walk(nodes, ancestors), expanded)
    decreases nodes
  {
    if nodes != [] {
      var init := nodes[..|nodes| - 1];
      var node := nodes[|nodes| - 1];
      var below := ancestors + [node.id];
      var childExpanded := parentExpanded && node.id in expanded;
      assert childExpanded <==> AllExpanded(below, expanded) by {
        assert forall i :: 0 <= i < |ancestors| ==> below[i] == ancestors[i];
        assert below[|ancestors|] == node.id;
      }
      FlatShowsExpandedDescendants(init, ancestors, parentExpanded, expanded);
      FlatShowsExpandedDescendants(node.children, below, childExpanded, expanded);
      ShownAppend(Walk(init, ancestors) + [(node, ancestors)], Walk(node.children, below), expanded);
      ShownAppend(Walk(init, ancestors), [(node, ancestors)], expanded);
      assert [(node, ancestors)][..0] == [];
      if node.children == [] {
        assert Walk(node.children, below) == [];
      }
    }
  }

  /** `flattenedWBSNodes`: the flattened view of the tree of `tasks`. */
  method FlattenedWbsNodes(tasks: seq<Task>, expanded: set<string>) returns (result: seq<WbsNode>)
    ensures result == Shown(Walk(WbsTree(tasks), []), expanded)
  {
    var tree := BuildTree(tasks);
    result := FlattenInto(tree, true, expanded, []);
    FlatShowsExpandedDescendants(tree, [], true, expanded);
  }

  /** Every node of a forest, in pre-order. */
  function PreOrder(nodes: seq<WbsNode>): seq<WbsNode>
    decreases nodes
  {
    if nodes == [] then []
    else
      var node := nodes[|nodes| - 1];
      PreOrder(nodes[..|nodes| - 1]) + [node] + PreOrder(node.children)
  }

  /** Every node of the forest that has children is named in `ids`. */
  predicate InnerIdsIn(nodes: seq<WbsNode>, ids: set<string>)
    decreases nodes
  {
    forall i :: 0 <= i < |nodes| ==>
      (|nodes[i].children| > 0 ==> nodes[i].id in ids) && InnerIdsIn(nodes[i].children, ids)
  }

  /** With every inner node expanded, the view lists the whole forest. */
  lemma {:induction false} FlatAllExpanded(nodes: seq<WbsNode>, expanded: set<string>)
    requires InnerIdsIn(nodes, expanded)
    ensures Flat(nodes, true, expanded) == PreOrder(nodes)
    decreases nodes
  {
    if nodes != [] {
      var init := nodes[..|nodes| - 1];
      var node := nodes[|nodes| - 1];
      assert InnerIdsIn(init, expanded) by {
        forall i | 0 <= i < |init| ensures (|init[i].children| > 0 ==> init[i].id in expanded) && InnerIdsIn(init[i].children, expanded) {
          assert init[i] == nodes[i];
        }
      }
      FlatAllExpanded(init, expanded);
      if |node.children| > 0 {
        FlatAllExpanded(node.children, expanded);
      } else {
        assert node.children == [];
      }
    }
  }

  /** The key the expanded store files a task's milestone under: its trimmed milestone,
      or "default" when that is absent or empty. */
  function ExpandKey(t: Task): string
  {
    var k := MilestoneKey(t);
    if k == "" then "default" else k
  }

  /** The set of keys `expandAll` collects, in its insertion order. */
  function ExpandKeys(ts: seq<Task>): seq<string>
  {
    if ts == [] then []
    else
      var ks := ExpandKeys(ts[..|ts| - 1]);
      var k := ExpandKey(ts[|ts| - 1]);
      if k in ks then ks else ks + [k]
  }

  /** The phase ids opened under milestone id `mid` for the phases `ps`. */
  function PhaseIds(mid: string, ps: seq<Phase>): set<string>
  {
    if ps == [] then {} else PhaseIds(mid, ps[..|ps| - 1]) + {"phase-" + mid + "-" + PhaseName(ps[|ps| - 1])}
  }

  /** The ids opened for one collected key: the milestone and all five of its phases. */
  function MilestoneIds(m: string): set<string>
  {
    var mid := if m == "" then "default" else m;
    {"milestone-" + mid} + PhaseIds(mid, PhaseOrder)
  }

  function OpenIds(keys: seq<string>): set<string>
  {
    if keys == [] then {} else OpenIds(keys[..|keys| - 1]) + MilestoneIds(keys[|keys| - 1])
  }

  /** The ids `expandAll` and `reset` open for a task list. */
  function ExpandAllIds(ts: seq<Task>): set<string>
  {
    OpenIds(ExpandKeys(ts))
  }

  lemma {:induction false} ExpandKeysHas(ts: seq<Task>, t: Task)
    requires t in ts
    ensures ExpandKey(t) in ExpandKeys(ts)
  {
    var init := ts[..|ts| - 1];
    if ts[|ts| - 1] != t {
      assert t in init by { assert ts == init + [ts[|ts| - 1]]; }
      ExpandKeysHas(init, t);
    }
  }

  lemma {:induction false} OpenIdsHas(keys: seq<string>, m: string)
    requires m in keys
    ensures MilestoneIds(m) <= OpenIds(keys)
  {
    var init := keys[..|keys| - 1];
    if keys[|keys| - 1] != m {
      assert m in init by { assert keys == init + [keys[|keys| - 1]]; }
      OpenIdsHas(init, m);
    }
  }

  lemma {:induction false} PhaseIdsHas(mid: string, ps: seq<Phase>, p: Phase)
    requires p in ps
    ensures "phase-" + mid + "-" + PhaseName(p) in PhaseIds(mid, ps)
  {
    var init := ps[..|ps| - 1];
    if ps[|ps| - 1] != p {
      assert p in init by { assert ps == init + [ps[|ps| - 1]]; }
      PhaseIdsHas(mid, init, p);
    }
  }

  /** The open ids name a listed milestone's node and each of its phase nodes. */
  lemma MilestoneIdsOpen(ts: seq<Task>, k: string)
    requires k in MilestoneKeys(ts)
    ensures MilestoneNodeId(k) in ExpandAllIds(ts)
    ensures InnerIdsIn(PhaseNodes(ts, k, PhaseOrder), ExpandAllIds(ts))
  {
    var ids := ExpandAllIds(ts);
    MilestoneKeysExact(ts);
    assert exists u :: u in ts && MilestoneKey(u) == k;
    var t :| t in ts && MilestoneKey(t) == k;
    var ek := ExpandKey(t);
    ExpandKeysHas(ts, t);
    OpenIdsHas(ExpandKeys(ts), ek);
    var mid := if ek == "" then "default" else ek;
    assert mid == MilestoneId(k);
    PhaseNodesOpen(ts, k, ids);
  }

  /** When all phase ids of milestone `k` are open, so is every phase node of it. */
  lemma PhaseNodesOpen(ts: seq<Task>, k: string, ids: set<string>)
    requires PhaseIds(MilestoneId(k), PhaseOrder) <= ids
    ensures InnerIdsIn(PhaseNodes(ts, k, PhaseOrder), ids)
  {
    var phases := PhaseNodes(ts, k, PhaseOrder);
    forall j | 0 <= j < |phases|
      ensures (|phases[j].children| > 0 ==> phases[j].id in ids) && InnerIdsIn(phases[j].children, ids)
    {
      PhaseNodeWellFormed(ts, k, PhaseOrder, phases[j]);
      var p :| p in PhaseOrder && phases[j].phaseName == Some(PhaseName(p));
      PhaseIdsHas(MilestoneId(k), PhaseOrder, p);
      assert forall g :: g in phases[j].children ==> g.children == [];
    }
  }

  /** Expanding all (or resetting) opens every milestone and phase node of the tree, so the
      view then lists the whole tree. */
  lemma ExpandAllShowsWholeTree(ts: seq<Task>)
    ensures Flat(WbsTree(ts), true, ExpandAllIds(ts)) == PreOrder(WbsTree(ts))
  {
    var tree := WbsTree(ts);
    var ids := ExpandAllIds(ts);
    var keys := MilestoneKeys(ts);
    TreeHasEveryMilestone(ts);
    forall i | 0 <= i < |tree|
      ensures (|tree[i].children| > 0 ==> tree[i].id in ids) && InnerIdsIn(tree[i].children, ids)
    {
      MilestoneIdsOpen(ts, keys[i]);
    }
    FlatAllExpanded(tree, ids);
  }

  /** The store of expanded node ids. */
  class ExpandedStore {
    var expanded: set<string>

    constructor()
      ensures expanded == {}
    {
      expanded := {};
    }

    /** Flips the membership of exactly `nodeId`. */
    method Toggle(nodeId: string)
      modifies this
      ensures nodeId in expanded <==> nodeId !in old(expanded)
      ensures forall x :: x != nodeId ==> (x in expanded <==> x in old(expanded))
    {
      var next := expanded;
      if nodeId in next {
        next := next - {nodeId};
      } else {
        next := next + {nodeId};
      }
      expanded := next;
    }

    method Expand(nodeId: string)
      modifies this
      ensures expanded == old(expanded) + {nodeId}
    {
      expanded := expanded + {nodeId};
    }

    method Collapse(nodeId: string)
      modifies this
      ensures expanded == old(expanded) - {nodeId}
    {
      expanded := expanded - {nodeId};
    }

    method CollapseAll()
      modifies this
      ensures expanded == {}
    {
      expanded := {};
    }

    /** Opens every milestone of `tasks` and all five phases of each. */
    method ExpandAll(tasks: seq<Task>)
      modifies this
      ensures expanded == ExpandAllIds(tasks)
    {
      expanded := OpenAll(tasks);
    }

    /** The initial state: the same ids as `ExpandAll`. */
    method Reset(tasks: seq<Task>)
      modifies this
      ensures expanded == ExpandAllIds(tasks)
    {
      expanded := OpenAll(tasks);
    }
  }

  /** The first loop of `expandAll` and `reset`: the milestone keys of the tasks, as a set
      kept in insertion order. */
  method CollectKeys(tasks: seq<Task>) returns (keys: seq<string>)
    ensures keys == ExpandKeys(tasks)
  {
    keys := [];
    var i := 0;
    while i < |tasks|
      invariant i <= |tasks|
      invariant keys == ExpandKeys(tasks[..i])
    {
      assert tasks[..i + 1][..i] == tasks[..i];
      var k := ExpandKey(tasks[i]);
      if k !in keys {
        keys := keys + [k];
      }
      i := i + 1;
    }
    assert tasks[..i] == tasks;
  }

  /** The second loop of `expandAll` and `reset`: each milestone id and its five phase ids. */
  method OpenAll(tasks: seq<Task>) returns (next: set<string>)
    ensures next == ExpandAllIds(tasks)
  {
    var keys := CollectKeys(tasks);
    next := {};
    var j := 0;
    while j < |keys|
      invariant j <= |keys|
      invariant next == OpenIds(keys[..j])
    {
      assert keys[..j + 1][..j] == keys[..j];
      next := OpenMilestone(next, keys[j]);
      j := j + 1;
    }
    assert keys[..j] == keys;
  }

  /** One pass of the outer loop: adds the milestone's id, then its phase ids in phase order. */
  method OpenMilestone(before: set<string>, m: string) returns (next: set<string>)
    ensures next == before + MilestoneIds(m)
  {
    var milestoneId := if m == "" then "default" else m;
    next := before + {"milestone-" + milestoneId};
    var k := 0;
    while k < |PhaseOrder|
      invariant k <= |PhaseOrder|
      invariant next == before + {"milestone-" + milestoneId} + PhaseIds(milestoneId, PhaseOrder[..k])
    {
      assert PhaseOrder[..k + 1][..k] == PhaseOrder[..k];
      next := next + {"phase-" + milestoneId + "-" + PhaseName(PhaseOrder[k])};
      k := k + 1;
    }
    assert PhaseOrder[..k] == PhaseOrder;
  }

  datatype ViewMode = Graph | Wbs

  /** Which of the two views is showing; the graph view initially. */
  class ViewModeStore {
    var mode: ViewMode

    constructor()
      ensures mode == Graph
    {
      mode := Graph;
    }

    method SetGraph()
      modifies this
      ensures mode == Graph
    {
      mode := Graph;
    }

    method SetWbs()
      modifies this
      ensures mode == Wbs
    {
      mode := Wbs;
    }

    /** Switches to the other view. */
    method Toggle()
      modifies this
      ensures mode != old(mode)
    {
      mode := if mode == Graph then Wbs else Graph;
    }
  }
}
