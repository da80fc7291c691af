/** What the WBS tree promises about the task list it is built from: every task lands in
    exactly one leaf, every milestone key gets a node, progress adds up, and the tree has
    the fixed milestone / phase / task shape. */
module WbsProperties {
  import opened Text
  import opened WbsStore

  /** The tasks at the leaves of a forest, in pre-order. */
  function LeafTasks(nodes: seq<WbsNode>): seq<Task>
    decreases nodes
  {
    if nodes == [] then []
    else
      var last := nodes[|nodes| - 1];
      LeafTasks(nodes[..|nodes| - 1]) +
      (match last.task
       case Some(t) => [t]
       case None => LeafTasks(last.children))
  }

  lemma {:induction false} LeafTasksAppend(a: seq<WbsNode>, b: seq<WbsNode>)
    ensures LeafTasks(a + b) == LeafTasks(a) + LeafTasks(b)
    decreases |b|
  {
    if b == [] {
      assert a + b == a;
    } else {
      var init := b[..|b| - 1];
      assert (a + b)[..|a + b| - 1] == a + init;
      LeafTasksAppend(a, init);
    }
  }

  lemma {:induction false} LeafTasksOfLeaves(ts: seq<Task>)
    ensures LeafTasks(Leaves(ts)) == ts
  {
    if ts != [] {
      var init := ts[..|ts| - 1];
      assert Leaves(ts)[..|ts| - 1] == Leaves(init);
      LeafTasksOfLeaves(init);
    }
  }

  /** The leaves under a milestone's phase nodes are its tasks, phase by phase. */
  lemma {:induction false} LeafTasksOfPhaseNodes(ts: seq<Task>, m: string, ps: seq<Phase>)
    ensures LeafTasks(PhaseNodes(ts, m, ps)) == MilestoneTasks(ts, m, ps)
  {
    if ps != [] {
      var init := ps[..|ps| - 1];
      var p := ps[|ps| - 1];
      LeafTasksOfPhaseNodes(ts, m, init);
      var pts := PhaseTasks(ts, m, p);
      if pts != [] {
        LeafTasksAppend(PhaseNodes(ts, m, init), [PhaseNodeOf(m, p, pts)]);
        LeafTasksOfLeaves(pts);
        assert [PhaseNodeOf(m, p, pts)][..0] == [];
      }
    }
  }

  /** The tasks of milestones `ks`, milestone by milestone. */
  function KeysTasks(ts: seq<Task>, ks: seq<string>): seq<Task>
  {
    if ks == [] then [] else KeysTasks(ts, ks[..|ks| - 1]) + MilestoneTasks(ts, ks[|ks| - 1], PhaseOrder)
  }

  lemma {:induction false} LeafTasksOfTree(ts: seq<Task>, ks: seq<string>)
    ensures LeafTasks(TreeOf(ts, ks)) == KeysTasks(ts, ks)
  {
    if ks != [] {
      var init := ks[..|ks| - 1];
      var m := ks[|ks| - 1];
      LeafTasksOfTree(ts, init);
      LeafTasksOfPhaseNodes(ts, m, PhaseOrder);
      if PhaseNodes(ts, m, PhaseOrder) != [] {
        LeafTasksAppend(TreeOf(ts, init), [MilestoneNodeOf(ts, m)]);
        assert [MilestoneNodeOf(ts, m)][..0] == [];
      }
    }
  }

  /** The tasks of `ts` in milestone `m` whose phase is among `ps`, in input order. */
  function KeyPhaseTasks(ts: seq<Task>, m: string, ps: seq<Phase>): seq<Task>
  {
    if ts == [] then []
    else
      var t := ts[|ts| - 1];
      KeyPhaseTasks(ts[..|ts| - 1], m, ps) + (if MilestoneKey(t) == m && PhaseKey(t) in ps then [t] else [])
  }

  /** Adding a phase that was not yet listed adds exactly that phase's tasks. */
  lemma {:induction false} KeyPhaseTasksSplit(ts: seq<Task>, m: string, ps: seq<Phase>, p: Phase)
    requires p !in ps
    ensures multiset(KeyPhaseTasks(ts, m, ps + [p])) ==
            multiset(KeyPhaseTasks(ts, m, ps)) + multiset(PhaseTasks(ts, m, p))
  {
    if ts != [] {
      KeyPhaseTasksSplit(ts[..|ts| - 1], m, ps, p);
    }
  }

  lemma {:induction false} NoPhaseNoTasks(ts: seq<Task>, m: string)
    ensures KeyPhaseTasks(ts, m, []) == []
  {
    if ts != [] {
      NoPhaseNoTasks(ts[..|ts| - 1], m);
    }
  }

  lemma {:induction false} MilestoneTasksByPhase(ts: seq<Task>, m: string, ps: seq<Phase>)
    requires forall i, j :: 0 <= i < j < |ps| ==> ps[i] != ps[j]
    ensures multiset(MilestoneTasks(ts, m, ps)) == multiset(KeyPhaseTasks(ts, m, ps))
  {
    if ps == [] {
      NoPhaseNoTasks(ts, m);
    } else {
      var init := ps[..|ps| - 1];
      var p := ps[|ps| - 1];
      assert init + [p] == ps;
      MilestoneTasksByPhase(ts, m, init);
      KeyPhaseTasksSplit(ts, m, init, p);
    }
  }

  /** Every task of milestone `m` has a phase in the display order. */
  function KeyTasks(ts: seq<Task>, m: string): seq<Task>
  {
    KeyPhaseTasks(ts, m, PhaseOrder)
  }

  lemma KeyTasksSnoc(ts: seq<Task>, t: Task, m: string)
    ensures KeyTasks(ts + [t], m) == KeyTasks(ts, m) + (if MilestoneKey(t) == m then [t] else [])
  {
    assert (ts + [t])[..|ts|] == ts;
    EveryPhaseInOrder(PhaseKey(t));
  }

  /** A milestone's phases hold exactly the tasks carrying its key. */
  lemma MilestoneTasksAreKeyTasks(ts: seq<Task>, m: string)
    ensures multiset(MilestoneTasks(ts, m, PhaseOrder)) == multiset(KeyTasks(ts, m))
  {
    PhaseOrderDistinct();
    MilestoneTasksByPhase(ts, m, PhaseOrder);
  }

  /** No phase is listed twice in the display order. */
  lemma PhaseOrderDistinct()
    ensures forall i, j :: 0 <= i < j < |PhaseOrder| ==> PhaseOrder[i] != PhaseOrder[j]
  {
  }

  function SumKeyTasks(ts: seq<Task>, ks: seq<string>): multiset<Task>
  {
    if ks == [] then multiset{} else SumKeyTasks(ts, ks[..|ks| - 1]) + multiset(KeyTasks(ts, ks[|ks| - 1]))
  }

  /** How often `k` is listed in `ks`. */
  function Occurrences(k: string, ks: seq<string>): nat
  {
    if ks == [] then 0 else Occurrences(k, ks[..|ks| - 1]) + (if ks[|ks| - 1] == k then 1 else 0)
  }

  lemma {:induction false} OccursOnce(k: string, ks: seq<string>)
    requires forall i, j :: 0 <= i < j < |ks| ==> ks[i] != ks[j]
    requires k in ks
    ensures Occurrences(k, ks) == 1
  {
    var init := ks[..|ks| - 1];
    var m := ks[|ks| - 1];
    if m == k {
      OccursNever(k, init);
    } else {
      assert k in init;
      OccursOnce(k, init);
    }
  }

  lemma {:induction false} OccursNever(k: string, ks: seq<string>)
    requires k !in ks
    ensures Occurrences(k, ks) == 0
  {
    if ks != [] {
      OccursNever(k, ks[..|ks| - 1]);
    }
  }

  lemma {:induction false} SumKeyTasksSnoc(ts: seq<Task>, t: Task, ks: seq<string>)
    ensures SumKeyTasks(ts + [t], ks) ==
            SumKeyTasks(ts, ks) + multiset{}[t := Occurrences(MilestoneKey(t), ks)]
  {
    if ks != [] {
      var init := ks[..|ks| - 1];
      var m := ks[|ks| - 1];
      SumKeyTasksSnoc(ts, t, init);
      KeyTasksSnoc(ts, t, m);
    }
  }

  /** Summing the per-key tasks over distinct keys that cover every task gives the input back. */
  lemma {:induction false} SumKeyTasksCovers(ts: seq<Task>, ks: seq<string>)
    requires forall i, j :: 0 <= i < j < |ks| ==> ks[i] != ks[j]
    requires forall t :: t in ts ==> MilestoneKey(t) in ks
    ensures SumKeyTasks(ts, ks) == multiset(ts)
  {
    if ts == [] {
      SumKeyTasksEmpty(ks);
    } else {
      var init := ts[..|ts| - 1];
      var t := ts[|ts| - 1];
      assert init + [t] == ts;
      SumKeyTasksCovers(init, ks);
      SumKeyTasksSnoc(init, t, ks);
      OccursOnce(MilestoneKey(t), ks);
    }
  }

  lemma {:induction false} SumKeyTasksEmpty(ks: seq<string>)
    ensures SumKeyTasks([], ks) == multiset{}
  {
    if ks != [] {
      SumKeyTasksEmpty(ks[..|ks| - 1]);
    }
  }

  lemma {:induction false} KeysTasksSum(ts: seq<Task>, ks: seq<string>)
    ensures multiset(KeysTasks(ts, ks)) == SumKeyTasks(ts, ks)
  {
    if ks != [] {
      KeysTasksSum(ts, ks[..|ks| - 1]);
      MilestoneTasksAreKeyTasks(ts, ks[|ks| - 1]);
    }
  }

  /** The milestone keys are distinct, and a key is listed iff some task carries it. */
  lemma {:induction false} MilestoneKeysExact(ts: seq<Task>)
    ensures forall i, j :: 0 <= i < j < |MilestoneKeys(ts)| ==> MilestoneKeys(ts)[i] != MilestoneKeys(ts)[j]
    ensures forall k :: k in MilestoneKeys(ts) <==> exists t :: t in ts && MilestoneKey(t) == k
  {
    if ts != [] {
      var init := ts[..|ts| - 1];
      var t := ts[|ts| - 1];
      assert ts == init + [t];
      MilestoneKeysExact(init);
      forall k ensures k in MilestoneKeys(ts) <==> exists u :: u in ts && MilestoneKey(u) == k {
        if k in MilestoneKeys(ts) && k != MilestoneKey(t) {
          var u :| u in init && MilestoneKey(u) == k;
          assert u in ts;
        }
        if exists u :: u in ts && MilestoneKey(u) == k {
          var u :| u in ts && MilestoneKey(u) == k;
          if u != t {
            assert u in init;
          }
        }
      }
    }
  }

  /** Milestones are listed in order of first appearance: the keys of any prefix of the
      input are a prefix of the keys of the whole input. */
  lemma {:induction false} MilestoneKeysFirstAppearance(ts: seq<Task>, n: nat)
    requires n <= |ts|
    ensures MilestoneKeys(ts[..n]) <= MilestoneKeys(ts)
  {
    if n < |ts| {
      var init := ts[..|ts| - 1];
      assert init[..n] == ts[..n];
      MilestoneKeysFirstAppearance(init, n);
    } else {
      assert ts[..n] == ts;
    }
  }

  /** The tree partitions the input: its leaves hold every task exactly as often as the
      input does. */
  lemma TreePartitionsTasks(ts: seq<Task>)
    ensures multiset(LeafTasks(WbsTree(ts))) == multiset(ts)
  {
    var ks := MilestoneKeys(ts);
    MilestoneKeysExact(ts);
    LeafTasksOfTree(ts, ks);
    KeysTasksSum(ts, ks);
    SumKeyTasksCovers(ts, ks);
  }

  /** A listed key always has a node: its tasks are non-empty, so its phase nodes are too. */
  lemma KeyHasPhaseNodes(ts: seq<Task>, m: string)
    requires m in MilestoneKeys(ts)
    ensures PhaseNodes(ts, m, PhaseOrder) != []
  {
    MilestoneKeysExact(ts);
    var t :| t in ts && MilestoneKey(t) == m;
    KeyTasksHas(ts, t);
    MilestoneTasksAreKeyTasks(ts, m);
    LeafTasksOfPhaseNodes(ts, m, PhaseOrder);
    assert t in multiset(MilestoneTasks(ts, m, PhaseOrder));
  }

  lemma {:induction false} KeyTasksHas(ts: seq<Task>, t: Task)
    requires t in ts
    ensures t in KeyTasks(ts, MilestoneKey(t))
  {
    var init := ts[..|ts| - 1];
    var last := ts[|ts| - 1];
    assert ts == init + [last];
    KeyTasksSnoc(init, last, MilestoneKey(t));
    if last != t {
      assert t in init;
      KeyTasksHas(init, t);
    }
  }

  lemma {:induction false} TreeOfEveryKey(ts: seq<Task>, ks: seq<string>)
    requires forall k :: k in ks ==> k in MilestoneKeys(ts)
    ensures |TreeOf(ts, ks)| == |ks|
    ensures forall i :: 0 <= i < |ks| ==> TreeOf(ts, ks)[i] == MilestoneNodeOf(ts, ks[i])
  {
    if ks != [] {
      var init := ks[..|ks| - 1];
      var m := ks[|ks| - 1];
      assert ks == init + [m];
      TreeOfEveryKey(ts, init);
      KeyHasPhaseNodes(ts, m);
      var tree := TreeOf(ts, ks);
      assert tree == TreeOf(ts, init) + [MilestoneNodeOf(ts, m)];
      forall i | 0 <= i < |ks| ensures tree[i] == MilestoneNodeOf(ts, ks[i]) {
        if i < |init| {
          assert tree[i] == TreeOf(ts, init)[i];
        }
      }
    }
  }

  /** No milestone is skipped: the tree has one milestone node per key, in key order. */
  lemma TreeHasEveryMilestone(ts: seq<Task>)
    ensures |WbsTree(ts)| == |MilestoneKeys(ts)|
    ensures forall i :: 0 <= i < |WbsTree(ts)| ==> WbsTree(ts)[i] == MilestoneNodeOf(ts, MilestoneKeys(ts)[i])
  {
    TreeOfEveryKey(ts, MilestoneKeys(ts));
  }

  lemma {:induction false} CountCompletedAppend(a: seq<Task>, b: seq<Task>)
    ensures CountCompleted(a + b) == CountCompleted(a) + CountCompleted(b)
  {
    if b == [] {
      assert a + b == a;
    } else {
      var init := b[..|b| - 1];
      assert (a + b)[..|a + b| - 1] == a + init;
      CountCompletedAppend(a, init);
    }
  }

  function SumCompleted(nodes: seq<WbsNode>): nat
  {
    if nodes == [] then 0 else SumCompleted(nodes[..|nodes| - 1]) + nodes[|nodes| - 1].progress.completed
  }

  function SumTotal(nodes: seq<WbsNode>): nat
  {
    if nodes == [] then 0 else SumTotal(nodes[..|nodes| - 1]) + nodes[|nodes| - 1].progress.total
  }

  lemma {:induction false} LeavesAddUp(ts: seq<Task>)
    ensures SumCompleted(Leaves(ts)) == CountCompleted(ts)
    ensures SumTotal(Leaves(ts)) == |ts|
  {
    if ts != [] {
      var init := ts[..|ts| - 1];
      assert Leaves(ts)[..|ts| - 1] == Leaves(init);
      LeavesAddUp(init);
    }
  }

  lemma {:induction false} PhaseNodesAddUp(ts: seq<Task>, m: string, ps: seq<Phase>)
    ensures SumCompleted(PhaseNodes(ts, m, ps)) == CountCompleted(MilestoneTasks(ts, m, ps))
    ensures SumTotal(PhaseNodes(ts, m, ps)) == |MilestoneTasks(ts, m, ps)|
  {
    if ps != [] {
      var init := ps[..|ps| - 1];
      var p := ps[|ps| - 1];
      var rest := PhaseNodes(ts, m, init);
      var pts := PhaseTasks(ts, m, p);
      PhaseNodesAddUp(ts, m, init);
      CountCompletedAppend(MilestoneTasks(ts, m, init), pts);
      if pts != [] {
        var node := PhaseNodeOf(m, p, pts);
        assert (rest + [node])[..|rest|] == rest;
        assert node.progress.completed == CountCompleted(pts) && node.progress.total == |pts|;
      } else {
        assert MilestoneTasks(ts, m, ps) == MilestoneTasks(ts, m, init) + [];
      }
    }
  }

  /** The display rank of a phase node's phase name. */
  function PhaseRank(name: Option<string>): nat
  {
    if name == Some(PhaseName(ConceptDesign)) then 0
    else if name == Some(PhaseName(ArchitectureDesign)) then 1
    else if name == Some(PhaseName(Implementation)) then 2
    else if name == Some(PhaseName(Verification)) then 3
    else 4
  }

  /** Phase nodes built over phases listed in rank order come out in strictly increasing
      rank, each below the number of phases listed. */
  lemma {:induction false} PhaseNodesRanked(ts: seq<Task>, m: string, ps: seq<Phase>)
    requires forall i :: 0 <= i < |ps| ==> PhaseRank(Some(PhaseName(ps[i]))) == i
    ensures forall c :: c in PhaseNodes(ts, m, ps) ==> PhaseRank(c.phaseName) < |ps|
    ensures forall i, j :: 0 <= i < j < |PhaseNodes(ts, m, ps)| ==>
              PhaseRank(PhaseNodes(ts, m, ps)[i].phaseName) <
              PhaseRank(PhaseNodes(ts, m, ps)[j].phaseName)
  {
    if ps != [] {
      var init := ps[..|ps| - 1];
      var p := ps[|ps| - 1];
      assert forall i :: 0 <= i < |init| ==> init[i] == ps[i];
      PhaseNodesRanked(ts, m, init);
      var rest := PhaseNodes(ts, m, init);
      var pts := PhaseTasks(ts, m, p);
      if pts != [] {
        RankedAppend(rest, PhaseNodeOf(m, p, pts), |init|);
      }
    }
  }

  /** The display order lists the phases in rank order. */
  lemma PhaseOrderRanked()
    ensures forall i :: 0 <= i < |PhaseOrder| ==> PhaseRank(Some(PhaseName(PhaseOrder[i]))) == i
  {
    forall i | 0 <= i < |PhaseOrder|
      ensures PhaseRank(Some(PhaseName(PhaseOrder[i]))) == i
    {
      PhaseRankIsPosition(i);
    }
  }

  /** Appending a node of rank `r` to nodes ranked below `r` in increasing order keeps
      them in increasing order. */
  lemma RankedAppend(rest: seq<WbsNode>, node: WbsNode, r: nat)
    requires forall c :: c in rest ==> PhaseRank(c.phaseName) < r
    requires forall i, j :: 0 <= i < j < |rest| ==>
               PhaseRank(rest[i].phaseName) < PhaseRank(rest[j].phaseName)
    requires PhaseRank(node.phaseName) == r
    ensures forall c :: c in rest + [node] ==> PhaseRank(c.phaseName) < r + 1
    ensures forall i, j :: 0 <= i < j < |rest + [node]| ==>
              PhaseRank((rest + [node])[i].phaseName) < PhaseRank((rest + [node])[j].phaseName)
  {
    var all := rest + [node];
    forall i, j | 0 <= i < j < |all|
      ensures PhaseRank(all[i].phaseName) < PhaseRank(all[j].phaseName)
    {
      assert all[i] in rest;
    }
  }

  /** The rank of a phase's name is its position in the display order. */
  lemma PhaseRankIsPosition(k: nat)
    requires k < |PhaseOrder|
    ensures PhaseRank(Some(PhaseName(PhaseOrder[k]))) == k
  {
  }

  /** A task leaf: level 2, no children, named by its task's id. */
  predicate IsTaskLeaf(g: WbsNode)
  {
    g.kind == TaskNode && g.level == 2 && g.task.Some? && g.id == g.task.value.id && g.children == []
  }

  /** A phase node: level 1, non-empty, over task leaves whose progress adds up to its own. */
  predicate IsPhaseNode(c: WbsNode)
  {
    && c.kind == PhaseNode && c.level == 1 && |c.children| > 0
    && c.progress.completed == SumCompleted(c.children)
    && c.progress.total == SumTotal(c.children)
    && (forall g :: g in c.children ==> IsTaskLeaf(g))
  }

  /** Each milestone node: level 0, named and labelled by its key ("default" and "General"
      for the empty key), with non-empty phase children in display order whose progress
      adds up to its own. */
  lemma MilestoneNodeShape(ts: seq<Task>, m: string)
    requires m in MilestoneKeys(ts)
    ensures var n := MilestoneNodeOf(ts, m);
      && n.kind == MilestoneNode && n.level == 0
      && n.id == "milestone-" + (if m == "" then "default" else m)
      && n.labelText == (if m == "" then "General" else m)
      && |n.children| > 0
      && n.progress.completed == SumCompleted(n.children)
      && n.progress.total == SumTotal(n.children)
      && (forall i, j :: 0 <= i < j < |n.children| ==>
            PhaseRank(n.children[i].phaseName) < PhaseRank(n.children[j].phaseName))
      && (forall c :: c in n.children ==> IsPhaseNode(c))
  {
    KeyHasPhaseNodes(ts, m);
    PhaseNodesAddUp(ts, m, PhaseOrder);
    PhaseOrderRanked();
    PhaseNodesRanked(ts, m, PhaseOrder);
    forall c | c in PhaseNodes(ts, m, PhaseOrder)
      ensures IsPhaseNode(c)
    {
      PhaseNodeWellFormed(ts, m, PhaseOrder, c);
    }
  }

  lemma {:induction false} PhaseNodeWellFormed(ts: seq<Task>, m: string, ps: seq<Phase>, c: WbsNode)
    requires c in PhaseNodes(ts, m, ps)
    ensures IsPhaseNode(c)
    ensures c.phaseName.Some? && c.id == "phase-" + MilestoneId(m) + "-" + c.phaseName.value
    ensures c.milestone == Some(m)
    ensures exists p :: p in ps && c.phaseName == Some(PhaseName(p))
  {
    var init := ps[..|ps| - 1];
    var p := ps[|ps| - 1];
    var pts := PhaseTasks(ts, m, p);
    if c in PhaseNodes(ts, m, init) {
      PhaseNodeWellFormed(ts, m, init, c);
      var q :| q in init && c.phaseName == Some(PhaseName(q));
      assert q in ps;
    } else {
      assert c == PhaseNodeOf(m, p, pts);
      LeavesAddUp(pts);
      assert p in ps;
    }
  }
}
