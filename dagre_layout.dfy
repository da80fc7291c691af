/** The task graph's flow data and the grid snapping around the layered layout.

    The layout engine itself (rank assignment, crossing minimisation) is not modelled: its
    result is a parameter `centre` giving the centre it chose for each node id. Coordinates
    are real numbers and `Math.round` is rounding half up on them. */
module DagreLayout {
  import opened Text

  const BaseHeight: real := 100.0
  const WidthSmall: real := 180.0
  const WidthMedium: real := 240.0
  const WidthLarge: real := 320.0
  const LayoutGridX: real := 200.0

  datatype FlowTask = FlowTask(id: string, title: string, dependencies: Option<seq<string>>)

  datatype Point = Point(x: real, y: real)

  datatype Side = Left | Right | Top | Bottom

  /** A graph node: the node type, its position, the task it shows (if any) and, once laid
      out, the sides its edges attach to. */
  datatype FlowNode = FlowNode(id: string, nodeType: string, position: Point, task: Option<FlowTask>,
                               targetPosition: Option<Side>, sourcePosition: Option<Side>)

  datatype FlowEdge = FlowEdge(id: string, source: string, target: string, edgeType: string, animated: bool)

  datatype Dimensions = Dimensions(width: real, height: real)

  /** Width in three tiers by title length, 240 for a node without a task; height 100. */
  function NodeDimensions(n: FlowNode): (d: Dimensions)
    ensures d.height == 100.0
    ensures n.task.None? ==> d.width == 240.0
    ensures n.task.Some? ==>
              d.width == (if |n.task.value.title| <= 15 then 180.0
                          else if |n.task.value.title| <= 30 then 240.0 else 320.0)
  {
    match n.task
    case None => Dimensions(WidthMedium, BaseHeight)
    case Some(t) =>
      var len := |t.title|;
      var width := if len <= 15 then WidthSmall else if len <= 30 then WidthMedium else WidthLarge;
      Dimensions(width, BaseHeight)
  }

  function Deps(t: FlowTask): seq<string>
  {
    match t.dependencies
    case None => []
    case Some(ds) => ds
  }

  function TaskNode(t: FlowTask): FlowNode
  {
    FlowNode(t.id, "task", Point(0.0, 0.0), Some(t), None, None)
  }

  function DependencyEdge(dep: string, t: FlowTask): FlowEdge
  {
    FlowEdge("e" + dep + "-" + t.id, dep, t.id, "dependency", true)
  }

  /** The edges of one task: one per dependency entry, in order. */
  function TaskEdges(t: FlowTask, deps: seq<string>): seq<FlowEdge>
  {
    if deps == [] then [] else TaskEdges(t, deps[..|deps| - 1]) + [DependencyEdge(deps[|deps| - 1], t)]
  }

  function AllEdges(ts: seq<FlowTask>): seq<FlowEdge>
  {
    if ts == [] then [] else AllEdges(ts[..|ts| - 1]) + TaskEdges(ts[|ts| - 1], Deps(ts[|ts| - 1]))
  }

  function DependencyCount(ts: seq<FlowTask>): nat
  {
    if ts == [] then 0 else DependencyCount(ts[..|ts| - 1]) + |Deps(ts[|ts| - 1])|
  }

  /** `convertTasksToFlowData`: one node per task, and one edge per dependency entry. */
  method ConvertTasksToFlowData(tasks: seq<FlowTask>) returns (nodes: seq<FlowNode>, edges: seq<FlowEdge>)
    ensures |nodes| == |tasks|
    ensures forall i :: 0 <= i < |tasks| ==> nodes[i] == TaskNode(tasks[i])
    ensures edges == AllEdges(tasks)
  {
    nodes, edges := [], [];
    var i := 0;
    while i < |tasks|
      invariant i <= |tasks|
      invariant |nodes| == i
      invariant forall j :: 0 <= j < i ==> nodes[j] == TaskNode(tasks[j])
      invariant edges == AllEdges(tasks[..i])
    {
      var task := tasks[i];
      assert tasks[..i + 1][..i] == tasks[..i];
      nodes := nodes + [FlowNode(task.id, "task", Point(0.0, 0.0), Some(task), None, None)];
      var deps := Deps(task);
      ghost var before := edges;
      var j := 0;
      while j < |deps|
        invariant j <= |deps|
        invariant edges == before + TaskEdges(task, deps[..j])
      {
        assert deps[..j + 1][..j] == deps[..j];
        var edge := FlowEdge("e" + deps[j] + "-" + task.id, deps[j], task.id, "dependency", true);
        assert edge == DependencyEdge(deps[j], task);
        edges := edges + [edge];
        j := j + 1;
      }
      assert deps[..j] == deps;
      assert AllEdges(tasks[..i + 1]) == before + TaskEdges(task, deps);
      i := i + 1;
    }
    assert tasks[..i] == tasks;
  }

  lemma {:induction false} TaskEdgesExact(t: FlowTask, deps: seq<string>)
    ensures |TaskEdges(t, deps)| == |deps|
    ensures forall k :: 0 <= k < |deps| ==> TaskEdges(t, deps)[k] == DependencyEdge(deps[k], t)
  {
    if deps != [] {
      TaskEdgesExact(t, deps[..|deps| - 1]);
    }
  }

  /** There are exactly as many edges as dependency entries (duplicates are kept), every
      edge runs from a dependency of a task to that task, and every dependency entry of
      every task has its edge. */
  lemma {:induction false} EdgesExact(ts: seq<FlowTask>)
    ensures |AllEdges(ts)| == DependencyCount(ts)
    ensures forall e :: e in AllEdges(ts) ==>
              exists t :: t in ts && e.source in Deps(t) && e == DependencyEdge(e.source, t)
    ensures forall t, d :: t in ts && d in Deps(t) ==> DependencyEdge(d, t) in AllEdges(ts)
  {
    if ts != [] {
      var init := ts[..|ts| - 1];
      var last := ts[|ts| - 1];
      assert ts == init + [last];
      EdgesExact(init);
      TaskEdgesExact(last, Deps(last));
      var mine := TaskEdges(last, Deps(last));
      forall e | e in AllEdges(ts)
        ensures exists t :: t in ts && e.source in Deps(t) && e == DependencyEdge(e.source, t)
      {
        if e in AllEdges(init) {
          var t :| t in init && e.source in Deps(t) && e == DependencyEdge(e.source, t);
          assert t in ts;
        } else {
          assert e in mine;
          var k :| 0 <= k < |mine| && mine[k] == e;
          assert e.source == Deps(last)[k];
        }
      }
      forall t, d | t in ts && d in Deps(t)
        ensures DependencyEdge(d, t) in AllEdges(ts)
      {
        if t != last {
          assert t in init;
        } else {
          var k :| 0 <= k < |Deps(last)| && Deps(last)[k] == d;
          assert mine[k] == DependencyEdge(d, t);
        }
      }
    }
  }

  /** `Math.round`: the integer nearest to `x`, halves rounded up. */
  function Round(x: real): (r: int)
    ensures x - 0.5 < r as real <= x + 0.5
  {
    (x + 0.5).Floor
  }

  /** `Math.round(v / step) * step`: the multiple of `step` nearest to `v`. */
  function Snap(v: real, step: real): (r: real)
    requires step > 0.0
    ensures v - step / 2.0 < r <= v + step / 2.0
  {
    var k := Round(v / step);
    NearestMultiple(v, step, k as real);
    k as real * step
  }

  lemma NearestMultiple(v: real, step: real, k: real)
    requires step > 0.0 && v / step - 0.5 < k <= v / step + 0.5
    ensures v - step / 2.0 < k * step <= v + step / 2.0
  {
    AboveLower(v, step, k);
    BelowUpper(v, step, k);
  }

  lemma AboveLower(v: real, step: real, k: real)
    requires step > 0.0 && v / step - 0.5 < k
    ensures v - step / 2.0 < k * step
  {
    var a := v / step;
    assert a * step == v;
    MulPositive(k - a + 0.5, step);
    Distribute(k, a, step);
    Linear(k * step, a * step, step, v, (k - a + 0.5) * step);
  }

  lemma BelowUpper(v: real, step: real, k: real)
    requires step > 0.0 && k <= v / step + 0.5
    ensures k * step <= v + step / 2.0
  {
    var a := v / step;
    assert a * step == v;
    MulNonNegative(a + 0.5 - k, step);
    Distribute(k, a, step);
  }

  lemma Distribute(k: real, a: real, step: real)
    ensures (k - a + 0.5) * step == k * step - a * step + step / 2.0
    ensures (a + 0.5 - k) * step == a * step + step / 2.0 - k * step
  {
  }

  /** The linear step of the lower bound, with the products as plain numbers. */
  lemma Linear(p: real, q: real, step: real, v: real, d: real)
    requires q == v && d == p - q + step / 2.0 && d > 0.0
    ensures v - step / 2.0 < p
  {
  }

  lemma MulPositive(x: real, y: real)
    requires x > 0.0 && y > 0.0
    ensures x * y > 0.0
  {
  }

  lemma MulNonNegative(x: real, y: real)
    requires x >= 0.0 && y > 0.0
    ensures x * y >= 0.0
  {
  }

  /** A value already on the grid snaps to itself. */
  lemma SnapOfMultiple(k: int, step: real)
    requires step > 0.0
    ensures Snap(k as real * step, step) == k as real * step
  {
    assert k as real * step / step == k as real;
  }

  /** Snapping is idempotent: what it returns is on the grid. */
  lemma SnapIdempotent(v: real, step: real)
    requires step > 0.0
    ensures Snap(Snap(v, step), step) == Snap(v, step)
  {
    var k := Round(v / step);
    assert Snap(v, step) == k as real * step;
    SnapOfMultiple(k, step);
  }

  /** The snapped centre x: snapped to half the grid width, then to 100 again. */
  function SnappedX(x: real): real
  {
    Snap(Snap(x, LayoutGridX / 2.0), 100.0)
  }

  function SnappedY(y: real): real
  {
    Snap(y, 70.0)
  }

  /** The first snap of x is overwritten by the second: x ends on the 100 grid, within 50 of
      the layout's centre, and y on the 70 grid, within 35. */
  lemma SnappedCentre(c: Point)
    ensures SnappedX(c.x) == Snap(c.x, 100.0) && Snap(SnappedX(c.x), 100.0) == SnappedX(c.x)
    ensures Snap(SnappedY(c.y), 70.0) == SnappedY(c.y)
    ensures c.x - 50.0 < SnappedX(c.x) <= c.x + 50.0
    ensures c.y - 35.0 < SnappedY(c.y) <= c.y + 35.0
  {
    SnapIdempotent(c.x, 100.0);
    SnapIdempotent(c.y, 70.0);
  }

  /** A laid-out node: edge handles by direction, and its top-left corner placed so that the
      snapped centre is the centre of its box. */
  function LayoutNode(n: FlowNode, direction: string, centre: Point): (r: FlowNode)
    ensures r.id == n.id && r.nodeType == n.nodeType && r.task == n.task
    ensures direction == "LR" ==> r.targetPosition == Some(Left) && r.sourcePosition == Some(Right)
    ensures direction != "LR" ==> r.targetPosition == Some(Top) && r.sourcePosition == Some(Bottom)
    ensures r.position.x + NodeDimensions(n).width / 2.0 == SnappedX(centre.x)
    ensures r.position.y + NodeDimensions(n).height / 2.0 == SnappedY(centre.y)
  {
    var d := NodeDimensions(n);
    var isHorizontal := direction == "LR";
    n.(targetPosition := Some(if isHorizontal then Left else Top),
       sourcePosition := Some(if isHorizontal then Right else Bottom),
       position := Point(SnappedX(centre.x) - d.width / 2.0, SnappedY(centre.y) - d.height / 2.0))
  }

  /** `getLayoutedElements` around the layout engine, whose centres are `centre`: the same
      nodes in the same order, laid out, and the edges unchanged. */
  function LayoutedElements(nodes: seq<FlowNode>, edges: seq<FlowEdge>, direction: string,
                            centre: string -> Point): (r: (seq<FlowNode>, seq<FlowEdge>))
    ensures |r.0| == |nodes| && r.1 == edges
    ensures forall i :: 0 <= i < |nodes| ==> r.0[i] == LayoutNode(nodes[i], direction, centre(nodes[i].id))
  {
    (seq(|nodes|, i requires 0 <= i < |nodes| => LayoutNode(nodes[i], direction, centre(nodes[i].id))), edges)
  }
}
