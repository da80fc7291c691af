/** The resource hierarchy shown in the process view: an orchestrator root over meta-agent
    nodes, worker nodes and container nodes, reconciled with status events.

    Every handler deep-copies the forest and returns a new one, so the model works on
    values: a handler is a function from the old forest to the new one. A node without a
    `children` array is a node with no children. */
module ProcessStore {
  import opened Text

  datatype ResourceType = Orchestrator | Meta | Worker | Container

  datatype Node = Node(id: string, name: string, kind: ResourceType, status: string,
                       detail: Option<string>, expanded: bool, children: seq<Node>)

  const OrchestratorId: string := "global-orch"
  const DefaultWorkerId: string := "worker-default"

  /** The initial forest: a lone idle orchestrator. */
  function InitialState(): (r: seq<Node>)
    ensures |r| == 1 && r[0].id == OrchestratorId && r[0].kind == Orchestrator
    ensures r[0].status == "IDLE" && r[0].children == []
  {
    [Node(OrchestratorId, "Multiverse Orchestrator", Orchestrator, "IDLE", None, true, [])]
  }

  /** `Array.prototype.find` by id: the first node with that id. */
  function IndexOf(nodes: seq<Node>, id: string): (r: Option<nat>)
    ensures r.Some? ==> r.value < |nodes| && nodes[r.value].id == id &&
                        forall j :: 0 <= j < r.value ==> nodes[j].id != id
    ensures r.None? ==> forall j :: 0 <= j < |nodes| ==> nodes[j].id != id
  {
    if nodes == [] then None
    else if nodes[0].id == id then Some(0)
    else match IndexOf(nodes[1..], id)
      case None => None
      case Some(k) => Some(k + 1)
  }

  /** Lookup-or-create among `children`: the index of the first child with `created`'s id,
      after appending `created` at the end when there is none. */
  function Upsert(children: seq<Node>, created: Node): (r: (seq<Node>, nat))
    ensures r.1 < |r.0| && r.0[r.1].id == created.id
    ensures forall j :: 0 <= j < r.1 ==> r.0[j].id != created.id
    ensures (exists j :: 0 <= j < |children| && children[j].id == created.id) ==> r.0 == children
    ensures (forall j :: 0 <= j < |children| ==> children[j].id != created.id) ==>
              r.0 == children + [created] && r.1 == |children|
  {
    match IndexOf(children, created.id)
    case Some(k) => (children, k)
    case None => (children + [created], |children|)
  }

  function MetaNodeFor(taskId: string): Node
  {
    Node("meta-" + taskId, "Meta-Agent", Meta, "IDLE", Some("Initializing..."), true, [])
  }

  function WorkerNodeFor(metaId: string, workerId: string): Node
  {
    Node(metaId + "-" + workerId,
         "Worker: " + (if workerId == DefaultWorkerId then "Codex" else workerId),
         Worker, "IDLE", None, true, [])
  }

  function ContainerNodeFor(containerId: string): Node
  {
    var n := if |containerId| < 8 then |containerId| else 8;
    Node(containerId, "Container: " + containerId[..n], Container, "IDLE", Some(""), true, [])
  }

  /** A status event aimed at the meta node of a task. An absent worker id, command, image
      or exit code is `None`; an empty worker id, command or image is `Some("")`, which the
      handlers treat like an absent one. */
  datatype Event =
    | MetaUpdate(taskId: string, state: string, detailText: Option<string>)
    | WorkerUpdate(taskId: string, workerId: Option<string>, status: string,
                   command: Option<string>, exitCode: Option<int>)
    | ContainerUpdate(taskId: string, containerId: string, status: string, image: Option<string>)

  /** JavaScript truthiness of an optional string: absent and empty are both falsy. */
  predicate Truthy(s: Option<string>)
  {
    s.Some? && s.value != ""
  }

  /** `event.workerId || 'worker-default'`. */
  function WorkerIdOf(wid: Option<string>): (r: string)
    ensures Truthy(wid) ==> r == wid.value
    ensures !Truthy(wid) ==> r == DefaultWorkerId
  {
    if Truthy(wid) then wid.value else DefaultWorkerId
  }

  /** How JavaScript renders an absent detail in a string concatenation. */
  function DetailText(d: Option<string>): string
  {
    match d
    case None => "undefined"
    case Some(s) => s
  }

  /** The worker's new detail: the command when a non-empty one is given, else the previous
      detail, followed by the exit code when one is given. */
  function WorkerDetail(previous: Option<string>, command: Option<string>, exitCode: Option<int>): Option<string>
  {
    var base := if Truthy(command) then command else previous;
    match exitCode
    case None => base
    case Some(c) => Some(DetailText(base) + ExitSuffix(c))
  }

  /** The `` (Exit: ${code})`` suffix a worker event appends to the detail. */
  function ExitSuffix(code: int): string
  {
    " (Exit: " + IntToString(code) + ")"
  }

  /** The container's new detail: "Image: <image>" when a non-empty image is given, else the
      previous detail. */
  function ImageDetail(previous: Option<string>, image: Option<string>): Option<string>
  {
    if Truthy(image) then Some("Image: " + image.value) else previous
  }

  /** The effect of an event on its meta node (found or created). */
  function ApplyToMeta(meta: Node, e: Event): (r: Node)
    ensures r.(status := meta.status, detail := meta.detail, children := meta.children) == meta
    ensures e.MetaUpdate? ==> r.children == meta.children
    ensures !e.MetaUpdate? ==> r.status == meta.status && r.detail == meta.detail
  {
    match e
    case MetaUpdate(_, state, d) => meta.(status := state, detail := d)
    case WorkerUpdate(_, wid, status, command, exitCode) =>
      var (kids, k) := Upsert(meta.children, WorkerNodeFor(meta.id, WorkerIdOf(wid)));
      var w := kids[k];
      meta.(children := kids[k := w.(status := status, detail := WorkerDetail(w.detail, command, exitCode))])
    case ContainerUpdate(_, cid, status, image) =>
      var (kids, k) := Upsert(meta.children, WorkerNodeFor(meta.id, DefaultWorkerId));
      var w := kids[k];
      var (cs, c) := Upsert(w.children, ContainerNodeFor(cid));
      var cn := cs[c].(status := status, detail := ImageDetail(cs[c].detail, image));
      meta.(children := kids[k := w.(children := cs[c := cn])])
  }

  predicate IsBusy(state: string)
  {
    state == "THINKING" || state == "ACTING" || state == "PLANNING"
  }

  /** A meta, worker or container event: the meta node `meta-<taskId>` is found or created
      under the orchestrator and updated; without an orchestrator, the first root stands in
      for the meta node. An empty forest has no such node, and the update does not happen. */
  function HandleEvent(nodes: seq<Node>, e: Event): (r: seq<Node>)
    ensures |r| == |nodes|
    ensures forall i :: 0 <= i < |nodes| ==> r[i].id == nodes[i].id
  {
    if nodes == [] then nodes
    else match IndexOf(nodes, OrchestratorId)
      case None => nodes[0 := ApplyToMeta(nodes[0], e)]
      case Some(o) =>
        var orch := nodes[o];
        var (kids, k) := Upsert(orch.children, MetaNodeFor(e.taskId));
        var updated := orch.(children := kids[k := ApplyToMeta(kids[k], e)]);
        var mirrored := if e.MetaUpdate? && IsBusy(e.state) then updated.(status := "RUNNING") else updated;
        nodes[o := mirrored]
  }

  /** The execution state mirrored into the orchestrator; nothing else changes. */
  function HandleExecutionState(nodes: seq<Node>, state: string): (r: seq<Node>)
    ensures |r| == |nodes|
    ensures forall i :: 0 <= i < |nodes| && nodes[i].id != OrchestratorId ==> r[i] == nodes[i]
    ensures forall i :: 0 <= i < |nodes| ==> r[i].id == nodes[i].id && r[i].children == nodes[i].children
    ensures IndexOf(nodes, OrchestratorId).None? ==> r == nodes
    ensures IndexOf(nodes, OrchestratorId).Some? ==>
              var o := IndexOf(nodes, OrchestratorId).value;
              && r[o].status == (if state == "RUNNING" || state == "PAUSED" then state else "IDLE")
              && r[o].detail == Some(if state == "RUNNING" then "Orchestrating tasks..." else "Waiting for tasks...")
              && (forall i :: 0 <= i < |nodes| && i != o ==> r[i] == nodes[i])
  {
    match IndexOf(nodes, OrchestratorId)
    case None => nodes
    case Some(o) =>
      var status := if state == "RUNNING" then "RUNNING" else if state == "PAUSED" then "PAUSED" else "IDLE";
      var detail := if state == "RUNNING" then "Orchestrating tasks..." else "Waiting for tasks...";
      nodes[o := nodes[o].(status := status, detail := Some(detail))]
  }

  /** Which node `IndexOf` finds depends only on the ids. */
  lemma {:induction false} IndexOfSameIds(a: seq<Node>, b: seq<Node>, id: string)
    requires |a| == |b| && forall i :: 0 <= i < |a| ==> a[i].id == b[i].id
    ensures IndexOf(a, id) == IndexOf(b, id)
  {
    if a != [] {
      IndexOfSameIds(a[1..], b[1..], id);
    }
  }

  /** After an upsert, replacing the found node by one with the same id leaves the next
      upsert of that id finding it where it is, without appending. */
  lemma UpsertAgain(children: seq<Node>, created: Node, x: Node)
    requires x.id == created.id
    ensures var (kids, k) := Upsert(children, created);
            Upsert(kids[k := x], created) == (kids[k := x], k)
  {
    var (kids, k) := Upsert(children, created);
    var again := kids[k := x];
    IndexOfSameIds(kids, again, created.id);
    assert IndexOf(kids, created.id) == Some(k);
  }

  /** Whether applying the same event twice gives the same forest as applying it once: always,
      except for a worker event that carries an exit code but no command. */
  predicate Repeatable(e: Event)
  {
    e.WorkerUpdate? ==> Truthy(e.command) || e.exitCode.None?
  }

  lemma ApplyToMetaIdempotent(meta: Node, e: Event)
    requires Repeatable(e)
    ensures ApplyToMeta(ApplyToMeta(meta, e), e) == ApplyToMeta(meta, e)
  {
    match e
    case MetaUpdate(_, _, _) =>
    case WorkerUpdate(_, _, _, _, _) => WorkerUpdateIdempotent(meta, e);
    case ContainerUpdate(_, _, _, _) => ContainerUpdateIdempotent(meta, e);
  }

  lemma WorkerUpdateIdempotent(meta: Node, e: Event)
    requires e.WorkerUpdate? && Repeatable(e)
    ensures ApplyToMeta(ApplyToMeta(meta, e), e) == ApplyToMeta(meta, e)
  {
    var created := WorkerNodeFor(meta.id, WorkerIdOf(e.workerId));
    var (kids, k) := Upsert(meta.children, created);
    var w := kids[k];
    var w1 := w.(status := e.status, detail := WorkerDetail(w.detail, e.command, e.exitCode));
    UpsertAgain(meta.children, created, w1);
    assert WorkerDetail(w1.detail, e.command, e.exitCode) == w1.detail;
  }

  lemma ContainerUpdateIdempotent(meta: Node, e: Event)
    requires e.ContainerUpdate?
    ensures ApplyToMeta(ApplyToMeta(meta, e), e) == ApplyToMeta(meta, e)
  {
    var created := WorkerNodeFor(meta.id, DefaultWorkerId);
    var (kids, k) := Upsert(meta.children, created);
    var w := kids[k];
    var box := ContainerNodeFor(e.containerId);
    var (cs, c) := Upsert(w.children, box);
    var cn := cs[c].(status := e.status, detail := ImageDetail(cs[c].detail, e.image));
    var w1 := w.(children := cs[c := cn]);
    UpsertAgain(meta.children, created, w1);
    UpsertAgain(w.children, box, cn);
    var m1 := meta.(children := kids[k := w1]);
    assert ApplyToMeta(meta, e) == m1;
    assert Upsert(m1.children, WorkerNodeFor(m1.id, DefaultWorkerId)) == (kids[k := w1], k);
    assert Upsert(w1.children, box) == (cs[c := cn], c);
    var cn2 := cn.(status := e.status, detail := ImageDetail(cn.detail, e.image));
    assert cn2 == cn;
    assert cs[c := cn][c := cn2] == cs[c := cn];
    assert kids[k := w1][k := w1.(children := cs[c := cn])] == kids[k := w1];
  }

  /** Applying the same meta, container or execution event twice equals applying it once;
      so does a worker event with a command (or without an exit code). */
  lemma HandleEventIdempotent(nodes: seq<Node>, e: Event)
    requires Repeatable(e)
    ensures HandleEvent(HandleEvent(nodes, e), e) == HandleEvent(nodes, e)
  {
    var once := HandleEvent(nodes, e);
    IndexOfSameIds(nodes, once, OrchestratorId);
    if nodes != [] {
      match IndexOf(nodes, OrchestratorId)
      case None =>
        ApplyToMetaIdempotent(nodes[0], e);
      case Some(o) =>
        var orch := nodes[o];
        var created := MetaNodeFor(e.taskId);
        var (kids, k) := Upsert(orch.children, created);
        var m1 := ApplyToMeta(kids[k], e);
        UpsertAgain(orch.children, created, m1);
        ApplyToMetaIdempotent(kids[k], e);
        var updated := orch.(children := kids[k := m1]);
        var mirrored := if e.MetaUpdate? && IsBusy(e.state) then updated.(status := "RUNNING") else updated;
        assert once == nodes[o := mirrored];
        assert once[o] == mirrored;
        assert Upsert(mirrored.children, created) == (kids[k := m1], k);
        assert kids[k := m1][k := ApplyToMeta(m1, e)] == kids[k := m1];
        var updated2 := mirrored.(children := kids[k := m1]);
        assert updated2 == mirrored;
        var mirrored2 := if e.MetaUpdate? && IsBusy(e.state) then updated2.(status := "RUNNING") else updated2;
        assert mirrored2 == mirrored;
        assert once[o := mirrored2] == once;
    }
  }

  lemma HandleExecutionStateIdempotent(nodes: seq<Node>, state: string)
    ensures HandleExecutionState(HandleExecutionState(nodes, state), state) == HandleExecutionState(nodes, state)
  {
    IndexOfSameIds(nodes, HandleExecutionState(nodes, state), OrchestratorId);
  }

  /** The number of nodes in a forest. */
  function Size(nodes: seq<Node>): nat
    decreases nodes
  {
    if nodes == [] then 0
    else Size(nodes[..|nodes| - 1]) + 1 + Size(nodes[|nodes| - 1].children)
  }

  lemma {:induction false} SizeAppend(a: seq<Node>, b: seq<Node>)
    ensures Size(a + b) == Size(a) + Size(b)
    decreases |b|
  {
    if b == [] {
      assert a + b == a;
    } else {
      assert (a + b)[..|a + b| - 1] == a + b[..|b| - 1];
      SizeAppend(a, b[..|b| - 1]);
    }
  }

  lemma SizeUpdate(s: seq<Node>, i: nat, x: Node)
    requires i < |s|
    ensures Size(s[i := x]) + Size(s[i].children) == Size(s) + Size(x.children)
  {
    assert s == s[..i] + [s[i]] + s[i + 1..];
    assert s[i := x] == s[..i] + [x] + s[i + 1..];
    SizeAppend(s[..i] + [s[i]], s[i + 1..]);
    SizeAppend(s[..i], [s[i]]);
    SizeAppend(s[..i] + [x], s[i + 1..]);
    SizeAppend(s[..i], [x]);
    assert [s[i]][..0] == [] && [x][..0] == [];
  }

  lemma UpsertSize(children: seq<Node>, created: Node)
    requires created.children == []
    ensures Size(children) <= Size(Upsert(children, created).0) <= Size(children) + 1
  {
    if IndexOf(children, created.id).None? {
      SizeAppend(children, [created]);
      assert [created][..0] == [];
    }
  }

  lemma ApplyToMetaSize(meta: Node, e: Event)
    ensures Size(meta.children) <= Size(ApplyToMeta(meta, e).children) <= Size(meta.children) + 2
  {
    match e
    case MetaUpdate(_, _, _) =>
    case WorkerUpdate(_, wid, status, command, exitCode) =>
      var (kids, k) := Upsert(meta.children, WorkerNodeFor(meta.id, WorkerIdOf(wid)));
      UpsertSize(meta.children, WorkerNodeFor(meta.id, WorkerIdOf(wid)));
      var w := kids[k];
      SizeUpdate(kids, k, w.(status := status, detail := WorkerDetail(w.detail, command, exitCode)));
    case ContainerUpdate(_, cid, status, image) =>
      var (kids, k) := Upsert(meta.children, WorkerNodeFor(meta.id, DefaultWorkerId));
      UpsertSize(meta.children, WorkerNodeFor(meta.id, DefaultWorkerId));
      var w := kids[k];
      var (cs, c) := Upsert(w.children, ContainerNodeFor(cid));
      UpsertSize(w.children, ContainerNodeFor(cid));
      var cn := cs[c].(status := status, detail := ImageDetail(cs[c].detail, image));
      SizeUpdate(cs, c, cn);
      SizeUpdate(kids, k, w.(children := cs[c := cn]));
  }

  /** No event removes a node, and one event adds at most three (meta, worker, container). */
  lemma HandleEventSize(nodes: seq<Node>, e: Event)
    ensures Size(nodes) <= Size(HandleEvent(nodes, e)) <= Size(nodes) + 3
  {
    if nodes != [] {
      match IndexOf(nodes, OrchestratorId)
      case None =>
        ApplyToMetaSize(nodes[0], e);
        SizeUpdate(nodes, 0, ApplyToMeta(nodes[0], e));
      case Some(o) =>
        var orch := nodes[o];
        var (kids, k) := Upsert(orch.children, MetaNodeFor(e.taskId));
        UpsertSize(orch.children, MetaNodeFor(e.taskId));
        ApplyToMetaSize(kids[k], e);
        SizeUpdate(kids, k, ApplyToMeta(kids[k], e));
        var updated := orch.(children := kids[k := ApplyToMeta(kids[k], e)]);
        var mirrored := if e.MetaUpdate? && IsBusy(e.state) then updated.(status := "RUNNING") else updated;
        SizeUpdate(nodes, o, mirrored);
    }
  }

  /** Siblings have distinct ids, at every level. */
  predicate UniqueIds(nodes: seq<Node>)
    decreases nodes
  {
    (forall i, j :: 0 <= i < j < |nodes| ==> nodes[i].id != nodes[j].id) &&
    (forall i :: 0 <= i < |nodes| ==> UniqueIds(nodes[i].children))
  }

  lemma UpdateUnique(s: seq<Node>, i: nat, x: Node)
    requires UniqueIds(s) && i < |s| && x.id == s[i].id && UniqueIds(x.children)
    ensures UniqueIds(s[i := x])
  {
    var t := s[i := x];
    forall j | 0 <= j < |t| ensures UniqueIds(t[j].children) {
      if j != i {
        assert t[j] == s[j];
      }
    }
  }

  lemma UpsertUnique(children: seq<Node>, created: Node)
    requires UniqueIds(children) && created.children == []
    ensures UniqueIds(Upsert(children, created).0)
  {
    var r := Upsert(children, created).0;
    if IndexOf(children, created.id).None? {
      assert UniqueIds(created.children);
      forall j | 0 <= j < |r| ensures UniqueIds(r[j].children) {
        if j < |children| {
          assert r[j] == children[j];
        }
      }
    }
  }

  lemma ApplyToMetaUnique(meta: Node, e: Event)
    requires UniqueIds(meta.children)
    ensures UniqueIds(ApplyToMeta(meta, e).children)
  {
    match e
    case MetaUpdate(_, _, _) =>
    case WorkerUpdate(_, wid, status, command, exitCode) =>
      var (kids, k) := Upsert(meta.children, WorkerNodeFor(meta.id, WorkerIdOf(wid)));
      UpsertUnique(meta.children, WorkerNodeFor(meta.id, WorkerIdOf(wid)));
      var w := kids[k];
      UpdateUnique(kids, k, w.(status := status, detail := WorkerDetail(w.detail, command, exitCode)));
    case ContainerUpdate(_, cid, status, image) =>
      var (kids, k) := Upsert(meta.children, WorkerNodeFor(meta.id, DefaultWorkerId));
      UpsertUnique(meta.children, WorkerNodeFor(meta.id, DefaultWorkerId));
      var w := kids[k];
      var (cs, c) := Upsert(w.children, ContainerNodeFor(cid));
      UpsertUnique(w.children, ContainerNodeFor(cid));
      var cn := cs[c].(status := status, detail := ImageDetail(cs[c].detail, image));
      UpdateUnique(cs, c, cn);
      UpdateUnique(kids, k, w.(children := cs[c := cn]));
  }

  /** Lookup-or-create keeps child ids unique per parent. */
  lemma HandleEventUnique(nodes: seq<Node>, e: Event)
    requires UniqueIds(nodes)
    ensures UniqueIds(HandleEvent(nodes, e))
  {
    if nodes != [] {
      match IndexOf(nodes, OrchestratorId)
      case None =>
        ApplyToMetaUnique(nodes[0], e);
        UpdateUnique(nodes, 0, ApplyToMeta(nodes[0], e));
      case Some(o) =>
        var orch := nodes[o];
        var (kids, k) := Upsert(orch.children, MetaNodeFor(e.taskId));
        UpsertUnique(orch.children, MetaNodeFor(e.taskId));
        ApplyToMetaUnique(kids[k], e);
        UpdateUnique(kids, k, ApplyToMeta(kids[k], e));
        var updated := orch.(children := kids[k := ApplyToMeta(kids[k], e)]);
        var mirrored := if e.MetaUpdate? && IsBusy(e.state) then updated.(status := "RUNNING") else updated;
        UpdateUnique(nodes, o, mirrored);
    }
  }

  /** Under an orchestrator, an event touches only the orchestrator root and, under it, only
      the meta node `meta-<taskId>` (found, or appended as the last child); a meta event
      sets that node's status and detail, and the root becomes RUNNING exactly when the new
      state is THINKING, ACTING or PLANNING, keeping its status otherwise. */
  lemma HandleEventTouchesOneMeta(nodes: seq<Node>, e: Event)
    requires IndexOf(nodes, OrchestratorId).Some?
    ensures var o := IndexOf(nodes, OrchestratorId).value;
            var r := HandleEvent(nodes, e);
            var kids := nodes[o].children;
            var metaId := "meta-" + e.taskId;
            && (forall i :: 0 <= i < |nodes| && i != o ==> r[i] == nodes[i])
            && IndexOf(r[o].children, metaId).Some?
            && var k := IndexOf(r[o].children, metaId).value;
            && |r[o].children| == (if IndexOf(kids, metaId).Some? then |kids| else |kids| + 1)
            && (forall j :: 0 <= j < |kids| && j != k ==> r[o].children[j] == kids[j])
            && (e.MetaUpdate? ==> r[o].children[k].status == e.state && r[o].children[k].detail == e.detailText)
            && r[o].status == (if e.MetaUpdate? && IsBusy(e.state) then "RUNNING" else nodes[o].status)
  {
    var o := IndexOf(nodes, OrchestratorId).value;
    var r := HandleEvent(nodes, e);
    var (kids, k) := Upsert(nodes[o].children, MetaNodeFor(e.taskId));
    var updatedKids := kids[k := ApplyToMeta(kids[k], e)];
    assert r[o].children == updatedKids;
    IndexOfSameIds(kids, updatedKids, "meta-" + e.taskId);
  }

  /** The detail a child had before an event: the found child's, or `absent` when the event
      creates it. */
  function PriorDetail(children: seq<Node>, id: string, absent: Option<string>): Option<string>
  {
    match IndexOf(children, id)
    case Some(i) => children[i].detail
    case None => absent
  }

  /** A worker event updates the worker `<metaId>-<workerId>` (the default worker when none
      or an empty one is named): its status is the event's; its detail is the non-empty
      command when one is given and the previous detail otherwise (none for a new worker),
      followed by " (Exit: <code>)" whenever an exit code is given. */
  lemma WorkerUpdateEffect(meta: Node, e: Event)
    requires e.WorkerUpdate?
    ensures var workerId := WorkerIdOf(e.workerId);
            var wid := meta.id + "-" + workerId;
            var prev := PriorDetail(meta.children, wid, None);
            var suffix := if e.exitCode.Some? then ExitSuffix(e.exitCode.value) else "";
            var m := ApplyToMeta(meta, e);
            && IndexOf(m.children, wid).Some?
            && var w := m.children[IndexOf(m.children, wid).value];
            && w.status == e.status
            && (Truthy(e.command) && e.exitCode.None? ==> w.detail == e.command)
            && (Truthy(e.command) && e.exitCode.Some? ==> w.detail == Some(e.command.value + suffix))
            && (!Truthy(e.command) && e.exitCode.None? ==> w.detail == prev)
            && (!Truthy(e.command) && e.exitCode.Some? ==> w.detail == Some(DetailText(prev) + suffix))
            && (IndexOf(meta.children, wid).None? ==>
                  w.name == "Worker: " + (if workerId == DefaultWorkerId then "Codex" else workerId) &&
                  w.children == [])
  {
    var wid := meta.id + "-" + WorkerIdOf(e.workerId);
    var (kids, k) := Upsert(meta.children, WorkerNodeFor(meta.id, WorkerIdOf(e.workerId)));
    var w := kids[k];
    assert w.detail == PriorDetail(meta.children, wid, None);
    var w1 := w.(status := e.status, detail := WorkerDetail(w.detail, e.command, e.exitCode));
    IndexOfSameIds(kids, kids[k := w1], wid);
  }

  /** A worker event changes nothing but that worker's status and detail: the meta node's own
      fields, every other worker and the worker's containers are kept, and a new worker is
      appended after the existing ones. */
  lemma WorkerUpdateFrame(meta: Node, e: Event)
    requires e.WorkerUpdate?
    ensures var wid := meta.id + "-" + WorkerIdOf(e.workerId);
            var m := ApplyToMeta(meta, e);
            && m.(children := meta.children) == meta
            && IndexOf(m.children, wid).Some?
            && var k := IndexOf(m.children, wid).value;
            && |m.children| == (if IndexOf(meta.children, wid).Some? then |meta.children| else |meta.children| + 1)
            && (forall j :: 0 <= j < |meta.children| && j != k ==> m.children[j] == meta.children[j])
            && (k < |meta.children| ==>
                  m.children[k].(status := meta.children[k].status, detail := meta.children[k].detail)
                  == meta.children[k])
  {
    var wid := meta.id + "-" + WorkerIdOf(e.workerId);
    var (kids, k) := Upsert(meta.children, WorkerNodeFor(meta.id, WorkerIdOf(e.workerId)));
    var w := kids[k];
    var w1 := w.(status := e.status, detail := WorkerDetail(w.detail, e.command, e.exitCode));
    IndexOfSameIds(kids, kids[k := w1], wid);
    assert forall j :: 0 <= j < |meta.children| ==> kids[j] == meta.children[j];
  }

  /** A worker event with an exit code and no command is not repeatable: each application
      appends the exit suffix once more to the worker's detail, starting from the literal
      "undefined" for a new worker, so applying it twice differs from applying it once. */
  lemma WorkerExitSuffixAccumulates(meta: Node, e: Event)
    requires e.WorkerUpdate? && !Truthy(e.command) && e.exitCode.Some?
    ensures var wid := meta.id + "-" + WorkerIdOf(e.workerId);
            var once := ApplyToMeta(meta, e);
            var twice := ApplyToMeta(once, e);
            var suffix := ExitSuffix(e.exitCode.value);
            && PriorDetail(once.children, wid, None) == Some(DetailText(PriorDetail(meta.children, wid, None)) + suffix)
            && PriorDetail(twice.children, wid, None) == Some(DetailText(PriorDetail(once.children, wid, None)) + suffix)
            && twice != once
  {
    var wid := meta.id + "-" + WorkerIdOf(e.workerId);
    var once := ApplyToMeta(meta, e);
    WorkerUpdateEffect(meta, e);
    WorkerUpdateFrame(meta, e);
    assert once.id == meta.id;
    WorkerUpdateEffect(once, e);
    var twice := ApplyToMeta(once, e);
    var d1 := PriorDetail(once.children, wid, None);
    var d2 := PriorDetail(twice.children, wid, None);
    assert |DetailText(d2)| > |DetailText(d1)|;
  }

  /** A container event files the container, by its raw id, under the meta's default worker;
      its status is the event's, and its detail becomes "Image: <image>" when a non-empty
      image is given and stays what it was otherwise ("" for a new container). */
  lemma ContainerUpdateEffect(meta: Node, e: Event)
    requires e.ContainerUpdate?
    ensures var wid := meta.id + "-" + DefaultWorkerId;
            var m := ApplyToMeta(meta, e);
            && IndexOf(m.children, wid).Some?
            && var w := m.children[IndexOf(m.children, wid).value];
            && IndexOf(w.children, e.containerId).Some?
            && var c := w.children[IndexOf(w.children, e.containerId).value];
            && var found := IndexOf(meta.children, wid);
            && var before := if found.Some? then meta.children[found.value].children else [];
            && c.status == e.status
            && (Truthy(e.image) ==> c.detail == Some("Image: " + e.image.value))
            && (!Truthy(e.image) ==> c.detail == PriorDetail(before, e.containerId, Some("")))
  {
    var created := WorkerNodeFor(meta.id, DefaultWorkerId);
    var (kids, k) := Upsert(meta.children, created);
    var w := kids[k];
    var (cs, c) := Upsert(w.children, ContainerNodeFor(e.containerId));
    assert cs[c].detail == PriorDetail(w.children, e.containerId, Some(""));
    var cn := cs[c].(status := e.status, detail := ImageDetail(cs[c].detail, e.image));
    var w1 := w.(children := cs[c := cn]);
    IndexOfSameIds(kids, kids[k := w1], created.id);
    IndexOfSameIds(cs, cs[c := cn], e.containerId);
  }

  /** A container event changes no worker but the meta's default worker, and only that
      worker's containers: the meta node's own fields, every other worker and the default
      worker's own fields are kept, and a new default worker is appended at the end. */
  lemma ContainerUpdateFrame(meta: Node, e: Event)
    requires e.ContainerUpdate?
    ensures var wid := meta.id + "-" + DefaultWorkerId;
            var m := ApplyToMeta(meta, e);
            && m.(children := meta.children) == meta
            && IndexOf(m.children, wid).Some?
            && var k := IndexOf(m.children, wid).value;
            && |m.children| == (if IndexOf(meta.children, wid).Some? then |meta.children| else |meta.children| + 1)
            && (forall j :: 0 <= j < |meta.children| && j != k ==> m.children[j] == meta.children[j])
            && (k < |meta.children| ==> m.children[k].(children := meta.children[k].children) == meta.children[k])
  {
    var created := WorkerNodeFor(meta.id, DefaultWorkerId);
    var (kids, k) := Upsert(meta.children, created);
    var w := kids[k];
    var (cs, c) := Upsert(w.children, ContainerNodeFor(e.containerId));
    var cn := cs[c].(status := e.status, detail := ImageDetail(cs[c].detail, e.image));
    var w1 := w.(children := cs[c := cn]);
    IndexOfSameIds(kids, kids[k := w1], created.id);
    assert forall j :: 0 <= j < |meta.children| ==> kids[j] == meta.children[j];
  }

  /** Replacing the node an upsert found or appended: that node is found at the same index,
      the list grew by one exactly when the node was new, and every other node is kept. */
  lemma UpsertReplace(children: seq<Node>, created: Node, x: Node)
    requires x.id == created.id
    ensures var (kids, k) := Upsert(children, created);
            var r := kids[k := x];
            && IndexOf(r, created.id) == Some(k)
            && |r| == (if IndexOf(children, created.id).Some? then |children| else |children| + 1)
            && (forall j :: 0 <= j < |children| && j != k ==> r[j] == children[j])
            && (k < |children| ==> kids[k] == children[k])
            && (k == |children| ==> kids[k] == created)
  {
    var (kids, k) := Upsert(children, created);
    IndexOfSameIds(kids, kids[k := x], created.id);
  }

  /** Under the default worker, a container event changes only that container's status and
      detail: the other containers are kept, and a new container is appended at the end. */
  lemma ContainerUpdateSiblings(meta: Node, e: Event)
    requires e.ContainerUpdate?
    ensures var wid := meta.id + "-" + DefaultWorkerId;
            var found := IndexOf(meta.children, wid);
            var before := if found.Some? then meta.children[found.value].children else [];
            var m := ApplyToMeta(meta, e);
            && IndexOf(m.children, wid).Some?
            && var w := m.children[IndexOf(m.children, wid).value];
            && IndexOf(w.children, e.containerId).Some?
            && var c := IndexOf(w.children, e.containerId).value;
            && |w.children| == (if IndexOf(before, e.containerId).Some? then |before| else |before| + 1)
            && (forall j :: 0 <= j < |before| && j != c ==> w.children[j] == before[j])
            && (c < |before| ==> w.children[c].(status := before[c].status, detail := before[c].detail) == before[c])
  {
    var created := WorkerNodeFor(meta.id, DefaultWorkerId);
    var (kids, k) := Upsert(meta.children, created);
    var w := kids[k];
    var box := ContainerNodeFor(e.containerId);
    var (cs, c) := Upsert(w.children, box);
    var cn := cs[c].(status := e.status, detail := ImageDetail(cs[c].detail, e.image));
    var w1 := w.(children := cs[c := cn]);
    UpsertReplace(meta.children, created, w1);
    UpsertReplace(w.children, box, cn);
    assert ApplyToMeta(meta, e).children[k] == w1;
  }

}
