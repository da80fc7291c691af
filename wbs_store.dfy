/** The work-breakdown (WBS) view model: tasks grouped into a three-level tree
    (milestone, phase, task) with completion counts at every level.

    The tree is specified by functions (`WbsTree` and the functions it is built from);
    `BuildTree` is the builder's loop, proved to compute exactly that tree. */
module WbsStore {
  import opened Text

  /** A task as the view reads it. An absent phase name is the empty string. */
  datatype Task = Task(id: string, title: string, status: string, phaseName: string,
                       milestone: Option<string>)

  /** The five phases; `Other` is the catch-all phase whose name is "". */
  datatype Phase = ConceptDesign | ArchitectureDesign | Implementation | Verification | Other

  /** The fixed display order of the phases. */
  const PhaseOrder: seq<Phase> := [ConceptDesign, ArchitectureDesign, Implementation, Verification, Other]

  /** The display order lists every phase, each once. */
  lemma EveryPhaseInOrder(p: Phase)
    ensures p in PhaseOrder
  {
    match p
    case ConceptDesign => assert PhaseOrder[0] == p;
    case ArchitectureDesign => assert PhaseOrder[1] == p;
    case Implementation => assert PhaseOrder[2] == p;
    case Verification => assert PhaseOrder[3] == p;
    case Other => assert PhaseOrder[4] == p;
  }

  /** The phase name a task carries for each phase. */
  function PhaseName(p: Phase): string
  {
    match p
    case ConceptDesign => "概念設計"
    case ArchitectureDesign => "実装設計"
    case Implementation => "実装"
    case Verification => "検証"
    case Other => ""
  }

  function PhaseLabel(p: Phase): string
  {
    match p
    case ConceptDesign => "Concept Design"
    case ArchitectureDesign => "Architecture Design"
    case Implementation => "Implementation"
    case Verification => "Verification"
    case Other => "Other"
  }

  const DefaultMilestoneLabel: string := "General"

  datatype NodeKind = MilestoneNode | PhaseNode | TaskNode

  datatype Progress = Progress(completed: nat, total: nat, percentage: nat)

  datatype WbsNode = WbsNode(id: string, kind: NodeKind, labelText: string,
                             milestone: Option<string>, phaseName: Option<string>,
                             task: Option<Task>, children: seq<WbsNode>, level: nat,
                             progress: Progress)

  /** Completed work: succeeded, completed, or canceled (canceled work counts as resolved). */
  predicate IsTaskCompleted(status: string)
    ensures IsTaskCompleted(status) ==> status !in {"PENDING", "READY", "RUNNING", "FAILED", "BLOCKED"}
  {
    status == "SUCCEEDED" || status == "COMPLETED" || status == "CANCELED"
  }

  function CountCompleted(ts: seq<Task>): (n: nat)
    ensures n <= |ts|
  {
    if ts == [] then 0
    else CountCompleted(ts[..|ts| - 1]) + (if IsTaskCompleted(ts[|ts| - 1].status) then 1 else 0)
  }

  /** `Math.round(completed / total * 100)`, or 0 for no tasks: the integer nearest to
      100 * completed / total, halves rounded up. */
  function RoundedPercentage(completed: nat, total: nat): (p: nat)
    ensures total == 0 ==> p == 0
    ensures total > 0 ==> 2 * total * p <= 200 * completed + total < 2 * total * (p + 1)
    ensures completed <= total ==> p <= 100
  {
    if total > 0 then
      RoundingBounds(completed, total);
      (200 * completed + total) / (2 * total)
    else 0
  }

  /** The nearest-integer quotient brackets the exact one, and stays within 100 for a share. */
  lemma RoundingBounds(completed: nat, total: nat)
    requires total > 0
    ensures var p := (200 * completed + total) / (2 * total);
            p >= 0 && 2 * total * p <= 200 * completed + total < 2 * total * (p + 1) &&
            (completed <= total ==> p <= 100)
  {
    var n, d := 200 * completed + total, 2 * total;
    var p, r := n / d, n % d;
    assert n == d * p + r && 0 <= r < d;
    assert d * (p + 1) == d * p + d;
    if completed <= total {
      assert n < d * 101;
      MulCancel(d, p, 101);
    }
  }

  lemma MulCancel(d: int, p: int, q: int)
    requires d > 0 && d * p < d * q
    ensures p < q
  {
    assert d * (q - p) == d * q - d * p;
  }

  function CalculateProgress(ts: seq<Task>): (r: Progress)
    ensures r.total == |ts| && r.completed == CountCompleted(ts)
    ensures r.completed <= r.total && r.percentage <= 100
    ensures r.total == 0 ==> r.percentage == 0
  {
    var c := CountCompleted(ts);
    Progress(c, |ts|, RoundedPercentage(c, |ts|))
  }

  /** The milestone a task is grouped under: its trimmed milestone, "" when absent. */
  function MilestoneKey(t: Task): string
  {
    match t.milestone
    case None => ""
    case Some(m) => JsTrim(m)
  }

  /** The phase a task is grouped under: the phase its name names, `Other` for any other name. */
  function PhaseKey(t: Task): (p: Phase)
    ensures p == Other || PhaseName(p) == t.phaseName
    ensures (exists q :: PhaseName(q) == t.phaseName) ==> PhaseName(p) == t.phaseName
  {
    var n := t.phaseName;
    if n == PhaseName(ConceptDesign) then ConceptDesign
    else if n == PhaseName(ArchitectureDesign) then ArchitectureDesign
    else if n == PhaseName(Implementation) then Implementation
    else if n == PhaseName(Verification) then Verification
    else Other
  }

  /** The identity used in node ids for a milestone key ("" becomes "default"). */
  function MilestoneId(key: string): string
  {
    if key != "" then key else "default"
  }

  function MilestoneNodeId(key: string): string
  {
    "milestone-" + MilestoneId(key)
  }

  function PhaseNodeId(key: string, phase: Phase): string
  {
    "phase-" + MilestoneId(key) + "-" + PhaseName(phase)
  }

  /** The distinct milestone keys of `ts`, in order of first appearance. */
  function MilestoneKeys(ts: seq<Task>): seq<string>
  {
    if ts == [] then []
    else
      var ks := MilestoneKeys(ts[..|ts| - 1]);
      var k := MilestoneKey(ts[|ts| - 1]);
      if k in ks then ks else ks + [k]
  }

  /** The tasks of `ts` in milestone `m` and phase `p`, in input order. */
  function PhaseTasks(ts: seq<Task>, m: string, p: Phase): seq<Task>
  {
    if ts == [] then []
    else
      var rest := PhaseTasks(ts[..|ts| - 1], m, p);
      var t := ts[|ts| - 1];
      if MilestoneKey(t) == m && PhaseKey(t) == p then rest + [t] else rest
  }

  function TaskLeaf(t: Task): WbsNode
  {
    var done := IsTaskCompleted(t.status);
    WbsNode(t.id, TaskNode, t.title, None, None, Some(t), [], 2,
            Progress(if done then 1 else 0, 1, if done then 100 else 0))
  }

  function Leaves(ts: seq<Task>): (r: seq<WbsNode>)
    ensures |r| == |ts|
    ensures forall i :: 0 <= i < |ts| ==> r[i] == TaskLeaf(ts[i])
  {
    seq(|ts|, i requires 0 <= i < |ts| => TaskLeaf(ts[i]))
  }

  function PhaseNodeOf(m: string, p: Phase, pts: seq<Task>): WbsNode
  {
    WbsNode(PhaseNodeId(m, p), PhaseNode, PhaseLabel(p), Some(m), Some(PhaseName(p)), None,
            Leaves(pts), 1, CalculateProgress(pts))
  }

  /** The phase nodes of milestone `m` for the phases `ps`, empty phases omitted. */
  function PhaseNodes(ts: seq<Task>, m: string, ps: seq<Phase>): seq<WbsNode>
  {
    if ps == [] then []
    else
      var rest := PhaseNodes(ts, m, ps[..|ps| - 1]);
      var p := ps[|ps| - 1];
      var pts := PhaseTasks(ts, m, p);
      if pts == [] then rest else rest + [PhaseNodeOf(m, p, pts)]
  }

  /** The tasks of milestone `m`, phase by phase in the order `ps`. */
  function MilestoneTasks(ts: seq<Task>, m: string, ps: seq<Phase>): seq<Task>
  {
    if ps == [] then []
    else MilestoneTasks(ts, m, ps[..|ps| - 1]) + PhaseTasks(ts, m, ps[|ps| - 1])
  }

  function MilestoneNodeOf(ts: seq<Task>, m: string): WbsNode
  {
    WbsNode(MilestoneNodeId(m), MilestoneNode, if m != "" then m else DefaultMilestoneLabel,
            Some(m), Some(""), None, PhaseNodes(ts, m, PhaseOrder), 0,
            CalculateProgress(MilestoneTasks(ts, m, PhaseOrder)))
  }

  /** The milestone nodes for the keys `ks`; a milestone without phase nodes is omitted. */
  function TreeOf(ts: seq<Task>, ks: seq<string>): seq<WbsNode>
  {
    if ks == [] then []
    else
      var rest := TreeOf(ts, ks[..|ks| - 1]);
      var m := ks[|ks| - 1];
      if PhaseNodes(ts, m, PhaseOrder) == [] then rest else rest + [MilestoneNodeOf(ts, m)]
  }

  /** The WBS tree of a task list. */
  function WbsTree(ts: seq<Task>): seq<WbsNode>
  {
    TreeOf(ts, MilestoneKeys(ts))
  }

  /** A milestone key that no task carries has no tasks in any phase. */
  lemma {:induction false} PhaseTasksOfUnknownKey(ts: seq<Task>, m: string, p: Phase)
    requires m !in MilestoneKeys(ts)
    ensures PhaseTasks(ts, m, p) == []
  {
    if ts != [] {
      var init := ts[..|ts| - 1];
      assert MilestoneKeys(init) <= MilestoneKeys(ts);
      PhaseTasksOfUnknownKey(init, m, p);
    }
  }

  lemma MilestoneKeysSnoc(ts: seq<Task>, t: Task)
    ensures MilestoneKeys(ts + [t]) ==
            if MilestoneKey(t) in MilestoneKeys(ts) then MilestoneKeys(ts) else MilestoneKeys(ts) + [MilestoneKey(t)]
  {
    assert (ts + [t])[..|ts|] == ts;
  }

  lemma PhaseTasksSnoc(ts: seq<Task>, t: Task, m: string, p: Phase)
    ensures PhaseTasks(ts + [t], m, p) ==
            if MilestoneKey(t) == m && PhaseKey(t) == p then PhaseTasks(ts, m, p) + [t] else PhaseTasks(ts, m, p)
  {
    assert (ts + [t])[..|ts|] == ts;
  }

  /** Five empty phase buckets. */
  const NoBuckets: map<Phase, seq<Task>> :=
    map[ConceptDesign := [], ArchitectureDesign := [], Implementation := [], Verification := [], Other := []]

  /** `buckets` holds, for every milestone key of `ts` and no other, the tasks of each phase. */
  ghost predicate Grouped(ts: seq<Task>, buckets: map<string, map<Phase, seq<Task>>>)
  {
    (forall m :: m in buckets <==> m in MilestoneKeys(ts)) &&
    (forall m, p :: m in buckets ==> p in buckets[m] && buckets[m][p] == PhaseTasks(ts, m, p))
  }

  /** Filing one more task into its milestone's phase bucket keeps the buckets exact. */
  lemma GroupStep(ts: seq<Task>, t: Task, buckets: map<string, map<Phase, seq<Task>>>)
    requires Grouped(ts, buckets)
    ensures var mk := MilestoneKey(t);
            var phaseMap := if mk in buckets then buckets[mk] else NoBuckets;
            Grouped(ts + [t], buckets[mk := phaseMap[PhaseKey(t) := phaseMap[PhaseKey(t)] + [t]]])
  {
    var mk := MilestoneKey(t);
    var pk := PhaseKey(t);
    MilestoneKeysSnoc(ts, t);
    var phaseMap := if mk in buckets then buckets[mk] else NoBuckets;
    forall p ensures p in phaseMap && phaseMap[p] == PhaseTasks(ts, mk, p) {
      EveryPhaseInOrder(p);
      if mk !in buckets {
        PhaseTasksOfUnknownKey(ts, mk, p);
      }
    }
    var b2 := buckets[mk := phaseMap[pk := phaseMap[pk] + [t]]];
    forall m, p | m in b2 ensures p in b2[m] && b2[m][p] == PhaseTasks(ts + [t], m, p) {
      PhaseTasksSnoc(ts, t, m, p);
    }
  }

  /** The first pass of the builder: a Map from milestone key to its five phase buckets,
      given as its keys in insertion order and its entries. */
  method GroupTasks(tasks: seq<Task>) returns (keys: seq<string>, buckets: map<string, map<Phase, seq<Task>>>)
    ensures keys == MilestoneKeys(tasks)
    ensures forall m :: m in buckets <==> m in keys
    ensures forall m, p :: m in buckets ==> p in buckets[m] && buckets[m][p] == PhaseTasks(tasks, m, p)
  {
    keys, buckets := [], map[];
    ghost var seen: seq<Task> := [];
    var i := 0;
    while i < |tasks|
      invariant i <= |tasks| && seen == tasks[..i]
      invariant keys == MilestoneKeys(seen)
      invariant Grouped(seen, buckets)
    {
      var t := tasks[i];
      assert tasks[..i + 1] == seen + [t];
      GroupStep(seen, t, buckets);
      MilestoneKeysSnoc(seen, t);
      var mk := MilestoneKey(t);
      var pk := PhaseKey(t);
      ghost var filed := if mk in buckets then buckets[mk] else NoBuckets;
      if mk !in buckets {
        buckets := buckets[mk := NoBuckets];
        keys := keys + [mk];
      }
      var phaseMap := buckets[mk];
      assert phaseMap == filed;
      buckets := buckets[mk := phaseMap[pk := phaseMap[pk] + [t]]];
      seen := seen + [t];
      i := i + 1;
    }
    assert seen == tasks;
  }

  /** The phase pass for one milestone: its non-empty phases in display order, and the
      concatenation of their tasks. */
  method PhasePass(tasks: seq<Task>, m: string, phaseMap: map<Phase, seq<Task>>)
    returns (phaseNodes: seq<WbsNode>, milestoneTasks: seq<Task>)
    requires forall p :: p in phaseMap && phaseMap[p] == PhaseTasks(tasks, m, p)
    ensures phaseNodes == PhaseNodes(tasks, m, PhaseOrder)
    ensures milestoneTasks == MilestoneTasks(tasks, m, PhaseOrder)
  {
    phaseNodes, milestoneTasks := [], [];
    var k := 0;
    while k < |PhaseOrder|
      invariant k <= |PhaseOrder|
      invariant phaseNodes == PhaseNodes(tasks, m, PhaseOrder[..k])
      invariant milestoneTasks == MilestoneTasks(tasks, m, PhaseOrder[..k])
    {
      var phase := PhaseOrder[k];
      assert PhaseOrder[..k + 1][..k] == PhaseOrder[..k];
      var phaseTasks := phaseMap[phase];
      if |phaseTasks| != 0 {
        milestoneTasks := milestoneTasks + phaseTasks;
        phaseNodes := phaseNodes + [PhaseNodeOf(m, phase, phaseTasks)];
      }
      k := k + 1;
    }
    assert PhaseOrder[..k] == PhaseOrder;
  }

  /** The builder: one pass buckets the tasks by milestone key (in first-appearance order)
      and phase; a second pass emits a milestone node per key with its non-empty phases. */
  method BuildTree(tasks: seq<Task>) returns (tree: seq<WbsNode>)
    ensures tree == WbsTree(tasks)
  {
    var keys, buckets := GroupTasks(tasks);
    tree := [];
    var j := 0;
    while j < |keys|
      invariant j <= |keys|
      invariant tree == TreeOf(tasks, keys[..j])
    {
      var m := keys[j];
      assert keys[..j + 1][..j] == keys[..j];
      var phaseNodes, milestoneTasks := PhasePass(tasks, m, buckets[m]);
      if |phaseNodes| != 0 {
        var node := WbsNode(MilestoneNodeId(m), MilestoneNode,
                            if m != "" then m else DefaultMilestoneLabel,
                            Some(m), Some(""), None, phaseNodes, 0,
                            CalculateProgress(milestoneTasks));
        assert node == MilestoneNodeOf(tasks, m);
        tree := tree + [node];
      }
      j := j + 1;
    }
    assert keys[..j] == keys;
  }
}
