/** The dependency-aware scheduler: one `CheckAndSchedule` pass over the workspace state.

    The workspace repository is a `Workspace` object: the task and agent lists it stores, the
    runtime nodes and node designs the pass only reads, and a log of what the pass writes.
    The clock and the action-id generator are parameters indexed by candidate position; the
    executor goroutine started per dispatch is not modelled. */
module SchedulerV2 {
  import opened Text
  import opened Persistence

  const Pending := "pending"
  const Running := "running"
  const StartedKind := "task.started"
  const WorkspacePlaceholder := "TODO-ws-id"

  /** The payload of a start action. */
  function StartPayload(taskId: string, agentId: string): map<string, string> {
    map["task_id" := taskId, "agent_id" := agentId]
  }

  // ---------------------------------------------------------------------------------------
  // First-match lookups (each is the `for ... { if match { ...; break } }` of its loop)

  /** The position of the first runtime node with this id. */
  function FirstNode(nodes: seq<NodeRuntime>, id: string): (r: Option<nat>)
    ensures r.Some? ==> r.value < |nodes| && nodes[r.value].nodeId == id &&
                        forall j :: 0 <= j < r.value ==> nodes[j].nodeId != id
    ensures r.None? ==> forall j :: 0 <= j < |nodes| ==> nodes[j].nodeId != id
  {
    if nodes == [] then None
    else if nodes[0].nodeId == id then Some(0)
    else match FirstNode(nodes[1..], id)
      case None => None
      case Some(k) => Some(k + 1)
  }

  /** The position of the first agent with this id. */
  function FirstAgent(agents: seq<AgentState>, id: string): (r: Option<nat>)
    ensures r.Some? ==> r.value < |agents| && agents[r.value].agentId == id &&
                        forall j :: 0 <= j < r.value ==> agents[j].agentId != id
    ensures r.None? ==> forall j :: 0 <= j < |agents| ==> agents[j].agentId != id
  {
    if agents == [] then None
    else if agents[0].agentId == id then Some(0)
    else match FirstAgent(agents[1..], id)
      case None => None
      case Some(k) => Some(k + 1)
  }

  predicate HasRoom(a: AgentState) {
    |a.runningTasks| < a.maxParallel
  }

  /** `findAvailableAgent`: the position of the first agent running fewer tasks than it may. */
  function FirstFreeAgent(agents: seq<AgentState>): (r: Option<nat>)
    ensures r.Some? ==> r.value < |agents| && HasRoom(agents[r.value]) &&
                        forall j :: 0 <= j < r.value ==> !HasRoom(agents[j])
    ensures r.None? ==> forall j :: 0 <= j < |agents| ==> !HasRoom(agents[j])
  {
    if agents == [] then None
    else if HasRoom(agents[0]) then Some(0)
    else match FirstFreeAgent(agents[1..])
      case None => None
      case Some(k) => Some(k + 1)
  }

  // ---------------------------------------------------------------------------------------
  // Eligibility

  /** A dependency is done when the first runtime node carrying its id is implemented or
      verified; a dependency without a runtime node is not done. */
  predicate DependencyDone(dep: string, nodes: seq<NodeRuntime>) {
    match FirstNode(nodes, dep)
    case None => false
    case Some(i) => nodes[i].status == "implemented" || nodes[i].status == "verified"
  }

  /** A node's dependencies are satisfied when its design can be looked up and every
      dependency it lists is done; a failed design lookup makes the task ineligible. */
  predicate DepsSatisfied(nodeId: string, design: map<string, seq<string>>, nodes: seq<NodeRuntime>) {
    nodeId in design && forall d :: d in design[nodeId] ==> DependencyDone(d, nodes)
  }

  predicate Eligible(t: TaskState, design: map<string, seq<string>>, nodes: seq<NodeRuntime>) {
    t.status == Pending && DepsSatisfied(t.nodeId, design, nodes)
  }

  /** The candidate list: the eligible tasks, in task-list order. */
  function Candidates(tasks: seq<TaskState>, design: map<string, seq<string>>, nodes: seq<NodeRuntime>)
    : (r: seq<TaskState>)
    ensures |r| <= |tasks|
    ensures forall t :: t in r <==> t in tasks && Eligible(t, design, nodes)
  {
    if tasks == [] then []
    else
      var init := tasks[..|tasks| - 1];
      var last := tasks[|tasks| - 1];
      assert tasks == init + [last];
      Candidates(init, design, nodes) + (if Eligible(last, design, nodes) then [last] else [])
  }

  // ---------------------------------------------------------------------------------------
  // Dispatch

  /** The in-memory state of the dispatch loop. */
  datatype Pass = Pass(tasks: seq<TaskState>, agents: seq<AgentState>, actions: seq<Action>,
                       modifiedTasks: bool, modifiedAgents: bool)

  /** One iteration of the dispatch loop for `task`, at time `now`, with action id `actionId`:
      a candidate without a free agent is skipped; otherwise the action is recorded, the first
      task entry with its id becomes running on that agent, and the first agent with that
      agent's id gets the task appended. */
  function Dispatch(p: Pass, task: TaskState, now: int, actionId: string): (r: Pass)
    ensures |r.tasks| == |p.tasks| && |r.agents| == |p.agents|
    ensures |p.actions| <= |r.actions| <= |p.actions| + 1 && r.actions[..|p.actions|] == p.actions
  {
    match FirstFreeAgent(p.agents)
    case None => p
    case Some(k) =>
      var agentId := p.agents[k].agentId;
      var action := Action(actionId, now, StartedKind, WorkspacePlaceholder, StartPayload(task.taskId, agentId));
      var tasks' := match FirstTask(p.tasks, task.taskId)
        case None => p.tasks
        case Some(i) =>
          p.tasks[i := p.tasks[i].(status := Running, assignedAgent := agentId, updatedAt := now)];
      var agents' := match FirstAgent(p.agents, agentId)
        case None => p.agents
        case Some(a) =>
          p.agents[a := p.agents[a].(runningTasks := p.agents[a].runningTasks + [task.taskId])];
      Pass(tasks', agents', p.actions + [action],
           p.modifiedTasks || FirstTask(p.tasks, task.taskId).Some?,
           p.modifiedAgents || FirstAgent(p.agents, agentId).Some?)
  }

  /** The dispatch loop over `cands`; candidate `i` is stamped `clock(i)` and its action gets
      id `actionIds(i)`. */
  function DispatchAll(p: Pass, cands: seq<TaskState>, clock: nat -> int, actionIds: nat -> string)
    : (r: Pass)
    ensures |r.tasks| == |p.tasks| && |r.agents| == |p.agents|
    ensures |p.actions| <= |r.actions| <= |p.actions| + |cands| && r.actions[..|p.actions|] == p.actions
  {
    if cands == [] then p
    else
      var n := |cands| - 1;
      var q := DispatchAll(p, cands[..n], clock, actionIds);
      var r := Dispatch(q, cands[n], clock(n), actionIds(n));
      assert r.actions[..|p.actions|] == r.actions[..|q.actions|][..|p.actions|];
      r
  }

  lemma DispatchAllStep(p: Pass, cands: seq<TaskState>, c: TaskState, clock: nat -> int,
                        actionIds: nat -> string)
    ensures DispatchAll(p, cands + [c], clock, actionIds)
            == Dispatch(DispatchAll(p, cands, clock, actionIds), c, clock(|cands|), actionIds(|cands|))
  {
    assert (cands + [c])[..|cands|] == cands;
  }

  /** One dispatch keeps every task id and every agent's id and `MaxParallel` in place. */
  lemma DispatchKeepsIds(p: Pass, task: TaskState, now: int, actionId: string)
    ensures var r := Dispatch(p, task, now, actionId);
            (forall j :: 0 <= j < |p.tasks| ==> r.tasks[j].taskId == p.tasks[j].taskId) &&
            forall k :: 0 <= k < |p.agents| ==>
              r.agents[k].agentId == p.agents[k].agentId &&
              r.agents[k].maxParallel == p.agents[k].maxParallel
  {
  }

  /** A pass keeps every task id and every agent's id and `MaxParallel` in place. */
  lemma {:induction false} DispatchAllKeepsIds(p: Pass, cands: seq<TaskState>, clock: nat -> int,
                                               actionIds: nat -> string)
    ensures var r := DispatchAll(p, cands, clock, actionIds);
            (forall j :: 0 <= j < |p.tasks| ==> r.tasks[j].taskId == p.tasks[j].taskId) &&
            forall k :: 0 <= k < |p.agents| ==>
              r.agents[k].agentId == p.agents[k].agentId &&
              r.agents[k].maxParallel == p.agents[k].maxParallel
  {
    if cands != [] {
      var n := |cands| - 1;
      DispatchAllKeepsIds(p, cands[..n], clock, actionIds);
      DispatchKeepsIds(DispatchAll(p, cands[..n], clock, actionIds), cands[n], clock(n), actionIds(n));
    }
  }

  /** What the pass persists: its actions in order, then the task list if a task entry changed,
      then the agent list if an agent changed. */
  function Persisted(p: Pass): seq<Write> {
    ActionWrites(p.actions) + (if p.modifiedTasks then [SaveTasks] else [])
      + (if p.modifiedAgents then [SaveAgents] else [])
  }

  function Start(tasks: seq<TaskState>, agents: seq<AgentState>): Pass {
    Pass(tasks, agents, [], false, false)
  }

  // ---------------------------------------------------------------------------------------
  // The repository and the pass itself

  /** `allDependenciesSatisfied`. */
  method AllDependenciesSatisfied(ws: Workspace, nodeId: string) returns (ok: bool)
    ensures ok == DepsSatisfied(nodeId, ws.design, ws.nodes)
  {
    var design, nodes := ws.design, ws.nodes;
    if nodeId !in design {
      return false;
    }
    var deps := design[nodeId];
    var i := 0;
    while i < |deps|
      invariant 0 <= i <= |deps|
      invariant forall k :: 0 <= k < i ==> DependencyDone(deps[k], nodes)
    {
      var satisfied := false;
      var j := 0;
      while j < |nodes|
        invariant 0 <= j <= |nodes|
        invariant forall m :: 0 <= m < j ==> nodes[m].nodeId != deps[i]
        invariant !satisfied
      {
        if nodes[j].nodeId == deps[i] {
          if nodes[j].status == "implemented" || nodes[j].status == "verified" {
            satisfied := true;
          }
          break;
        }
        j := j + 1;
      }
      assert satisfied == DependencyDone(deps[i], nodes);
      if !satisfied {
        return false;
      }
      i := i + 1;
    }
    return true;
  }

  /** The candidate-selection loop of `CheckAndSchedule`. */
  method SelectCandidates(ws: Workspace) returns (candidates: seq<TaskState>)
    ensures candidates == Candidates(ws.tasks, ws.design, ws.nodes)
  {
    var tasks := ws.tasks;
    candidates := [];
    var c := 0;
    while c < |tasks|
      invariant 0 <= c <= |tasks|
      invariant candidates == Candidates(tasks[..c], ws.design, ws.nodes)
    {
      var t := tasks[c];
      assert tasks[..c + 1][..c] == tasks[..c];
      if t.status == Pending {
        var ok := AllDependenciesSatisfied(ws, t.nodeId);
        if ok {
          candidates := candidates + [t];
        }
      }
      c := c + 1;
    }
    assert tasks[..|tasks|] == tasks;
  }

  /** `CheckAndSchedule` after loading: select the candidates, dispatch them first-fit, and
      persist the actions, then the tasks and the agents if they changed. */
  method CheckAndSchedule(ws: Workspace, clock: nat -> int, actionIds: nat -> string)
    modifies ws
    ensures var p := DispatchAll(Start(old(ws.tasks), old(ws.agents)),
                                 Candidates(old(ws.tasks), ws.design, ws.nodes), clock, actionIds);
            ws.writes == old(ws.writes) + Persisted(p) &&
            ws.tasks == (if p.modifiedTasks then p.tasks else old(ws.tasks)) &&
            ws.agents == (if p.modifiedAgents then p.agents else old(ws.agents))
    ensures Candidates(old(ws.tasks), ws.design, ws.nodes) == [] ==>
              ws.writes == old(ws.writes) && ws.tasks == old(ws.tasks) && ws.agents == old(ws.agents)
  {
    var candidates := SelectCandidates(ws);
    if |candidates| == 0 {
      return;
    }
    var p := RunDispatch(ws.tasks, ws.agents, candidates, clock, actionIds);
    ws.AppendActions(p.actions);
    if p.modifiedTasks {
      ws.tasks := p.tasks;
      ws.writes := ws.writes + [SaveTasks];
    }
    if p.modifiedAgents {
      ws.agents := p.agents;
      ws.writes := ws.writes + [SaveAgents];
    }
  }
  /** The dispatch loop of `CheckAndSchedule`: for each candidate in order, find a free agent,
      record the action, and update the task and agent lists in place. */
  method RunDispatch(tasks: seq<TaskState>, agents: seq<AgentState>, candidates: seq<TaskState>,
                     clock: nat -> int, actionIds: nat -> string) returns (p: Pass)
    ensures p == DispatchAll(Start(tasks, agents), candidates, clock, actionIds)
  {
    p := Start(tasks, agents);
    var i := 0;
    while i < |candidates|
      invariant 0 <= i <= |candidates|
      invariant p == DispatchAll(Start(tasks, agents), candidates[..i], clock, actionIds)
    {
      DispatchAllStep(Start(tasks, agents), candidates[..i], candidates[i], clock, actionIds);
      assert candidates[..i] + [candidates[i]] == candidates[..i + 1];
      p := DispatchStep(p, candidates[i], clock(i), actionIds(i));
      i := i + 1;
    }
    assert candidates[..|candidates|] == candidates;
  }

  /** The body of the dispatch loop for one candidate. */
  method DispatchStep(p: Pass, task: TaskState, now: int, actionId: string) returns (r: Pass)
    ensures r == Dispatch(p, task, now, actionId)
  {
    var ts, ags, actions := p.tasks, p.agents, p.actions;
    var modifiedTasks, modifiedAgents := p.modifiedTasks, p.modifiedAgents;
    var found := FindAvailableAgent(ags);
    if found.Some? {
      var agentId := found.value;
      actions := actions + [Action(actionId, now, StartedKind, WorkspacePlaceholder,
                                   StartPayload(task.taskId, agentId))];
      var j := 0;
      while j < |ts|
        invariant 0 <= j <= |ts| && ts == p.tasks && modifiedTasks == p.modifiedTasks
        invariant forall m :: 0 <= m < j ==> ts[m].taskId != task.taskId
      {
        if ts[j].taskId == task.taskId {
          ts := ts[j := ts[j].(status := Running, assignedAgent := agentId, updatedAt := now)];
          modifiedTasks := true;
          break;
        }
        j := j + 1;
      }
      var a := 0;
      while a < |ags|
        invariant 0 <= a <= |ags| && ags == p.agents && modifiedAgents == p.modifiedAgents
        invariant forall m :: 0 <= m < a ==> ags[m].agentId != agentId
      {
        if ags[a].agentId == agentId {
          ags := ags[a := ags[a].(runningTasks := ags[a].runningTasks + [task.taskId])];
          modifiedAgents := true;
          break;
        }
        a := a + 1;
      }
    }
    r := Pass(ts, ags, actions, modifiedTasks, modifiedAgents);
  }

  /** `findAvailableAgent`: the id of the first agent with room, if any. */
  method FindAvailableAgent(agents: seq<AgentState>) returns (r: Option<string>)
    ensures r.Some? <==> FirstFreeAgent(agents).Some?
    ensures r.Some? ==> r.value == agents[FirstFreeAgent(agents).value].agentId
  {
    var i := 0;
    while i < |agents|
      invariant 0 <= i <= |agents|
      invariant forall j :: 0 <= j < i ==> !HasRoom(agents[j])
    {
      if |agents[i].runningTasks| < agents[i].maxParallel {
        return Some(agents[i].agentId);
      }
      i := i + 1;
    }
    return None;
  }

  // ---------------------------------------------------------------------------------------
  // Properties of the pass

  predicate InCapacity(a: AgentState) {
    |a.runningTasks| <= a.maxParallel
  }

  predicate UniqueAgentIds(agents: seq<AgentState>) {
    forall i, j :: 0 <= i < j < |agents| ==> agents[i].agentId != agents[j].agentId
  }

  /** A dependency is satisfied iff some runtime node carries its id, the first such node is
      implemented or verified; a node whose design lookup fails is never satisfied, one whose
      design lists no dependencies always is. */
  lemma DepsSatisfiedIff(nodeId: string, design: map<string, seq<string>>, nodes: seq<NodeRuntime>)
    ensures DepsSatisfied(nodeId, design, nodes) <==>
              nodeId in design &&
              forall d :: d in design[nodeId] ==>
                exists i :: 0 <= i < |nodes| && nodes[i].nodeId == d &&
                  (forall j :: 0 <= j < i ==> nodes[j].nodeId != d) &&
                  (nodes[i].status == "implemented" || nodes[i].status == "verified")
    ensures nodeId in design && design[nodeId] == [] ==> DepsSatisfied(nodeId, design, nodes)
  {
    if nodeId in design {
      forall d | d in design[nodeId]
        ensures DependencyDone(d, nodes) <==>
                exists i :: 0 <= i < |nodes| && nodes[i].nodeId == d &&
                  (forall j :: 0 <= j < i ==> nodes[j].nodeId != d) &&
                  (nodes[i].status == "implemented" || nodes[i].status == "verified")
      {
        match FirstNode(nodes, d)
        case None =>
        case Some(i) =>
          if exists i' :: 0 <= i' < |nodes| && nodes[i'].nodeId == d &&
                (forall j :: 0 <= j < i' ==> nodes[j].nodeId != d) &&
                (nodes[i'].status == "implemented" || nodes[i'].status == "verified") {
            var i' :| 0 <= i' < |nodes| && nodes[i'].nodeId == d &&
                (forall j :: 0 <= j < i' ==> nodes[j].nodeId != d) &&
                (nodes[i'].status == "implemented" || nodes[i'].status == "verified");
            assert i' == i;
          }
      }
    }
  }

  /** One dispatch, with distinct agent ids: with no free agent nothing changes; otherwise
      exactly the first free agent gets the task appended, exactly the first task entry with
      the candidate's id becomes running on it, and exactly one start action is recorded. */
  lemma DispatchEffect(p: Pass, task: TaskState, now: int, actionId: string)
    requires UniqueAgentIds(p.agents)
    ensures var r := Dispatch(p, task, now, actionId);
            FirstFreeAgent(p.agents).None? ==> r == p
    ensures var r := Dispatch(p, task, now, actionId);
            FirstFreeAgent(p.agents).Some? ==>
              var k := FirstFreeAgent(p.agents).value;
              var agentId := p.agents[k].agentId;
              r.actions == p.actions + [Action(actionId, now, StartedKind, WorkspacePlaceholder,
                                               StartPayload(task.taskId, agentId))] &&
              r.agents == p.agents[k := p.agents[k].(runningTasks := p.agents[k].runningTasks + [task.taskId])] &&
              r.modifiedAgents &&
              (forall j :: 0 <= j < |p.tasks| && Some(j) != FirstTask(p.tasks, task.taskId) ==>
                 r.tasks[j] == p.tasks[j]) &&
              (FirstTask(p.tasks, task.taskId).Some? ==>
                 var i := FirstTask(p.tasks, task.taskId).value;
                 r.modifiedTasks && r.tasks[i].status == Running && r.tasks[i].assignedAgent == agentId &&
                 r.tasks[i].updatedAt == now && r.tasks[i].taskId == p.tasks[i].taskId)
  {
    match FirstFreeAgent(p.agents)
    case None =>
    case Some(k) =>
      assert FirstAgent(p.agents, p.agents[k].agentId) == Some(k);
  }

  /** One dispatch never pushes an agent past `MaxParallel`, provided agent ids are distinct. */
  lemma DispatchKeepsCapacity(p: Pass, task: TaskState, now: int, actionId: string)
    requires UniqueAgentIds(p.agents)
    ensures var r := Dispatch(p, task, now, actionId);
            UniqueAgentIds(r.agents) &&
            forall k :: 0 <= k < |p.agents| && InCapacity(p.agents[k]) ==> InCapacity(r.agents[k])
  {
    DispatchEffect(p, task, now, actionId);
    DispatchKeepsIds(p, task, now, actionId);
  }

  /** The capacity invariant of a whole pass: an agent that starts within its `MaxParallel`
      ends within it, because the agent list is updated inside the loop. */
  lemma {:induction false} DispatchAllKeepsCapacity(p: Pass, cands: seq<TaskState>, clock: nat -> int,
                                                    actionIds: nat -> string)
    requires UniqueAgentIds(p.agents)
    ensures var r := DispatchAll(p, cands, clock, actionIds);
            UniqueAgentIds(r.agents) &&
            forall k :: 0 <= k < |p.agents| && InCapacity(p.agents[k]) ==> InCapacity(r.agents[k])
  {
    if cands != [] {
      var n := |cands| - 1;
      var q := DispatchAll(p, cands[..n], clock, actionIds);
      DispatchAllKeepsCapacity(p, cands[..n], clock, actionIds);
      DispatchKeepsCapacity(q, cands[n], clock(n), actionIds(n));
    }
  }

  /** With two agents sharing an id, the dispatch can fill the wrong one: the first agent is
      full, the second has room, and the task lands on the first. */
  lemma DuplicateAgentIdsOverfill()
    ensures var agents := [AgentState("a", 0, []), AgentState("a", 1, [])];
            var r := Dispatch(Start([], agents), TaskState("t", "n", Pending, "", 0, map[]), 0, "act");
            InCapacity(agents[0]) && !InCapacity(r.agents[0])
  {
    var agents := [AgentState("a", 0, []), AgentState("a", 1, [])];
    assert FirstFreeAgent(agents) == Some(1) by {
      assert !HasRoom(agents[0]) && HasRoom(agents[1]);
    }
    assert FirstAgent(agents, "a") == Some(0);
  }

  /** A pass writes tasks and agents exactly when it dispatched something, since every
      candidate comes from the task list and the chosen agent from the agent list. */
  lemma {:induction false} DispatchAllFlags(p: Pass, cands: seq<TaskState>, clock: nat -> int,
                                            actionIds: nat -> string)
    requires forall c :: c in cands ==> exists j :: 0 <= j < |p.tasks| && p.tasks[j].taskId == c.taskId
    ensures var r := DispatchAll(p, cands, clock, actionIds);
            r.modifiedTasks == (p.modifiedTasks || |r.actions| > |p.actions|) &&
            r.modifiedAgents == (p.modifiedAgents || |r.actions| > |p.actions|)
  {
    if cands != [] {
      var n := |cands| - 1;
      var q := DispatchAll(p, cands[..n], clock, actionIds);
      assert forall c :: c in cands[..n] ==> c in cands;
      DispatchAllFlags(p, cands[..n], clock, actionIds);
      DispatchAllKeepsIds(p, cands[..n], clock, actionIds);
      assert cands[n] in cands;
      var j :| 0 <= j < |p.tasks| && p.tasks[j].taskId == cands[n].taskId;
      assert q.tasks[j].taskId == cands[n].taskId;
      match FirstFreeAgent(q.agents)
      case None =>
      case Some(k) =>
        assert FirstAgent(q.agents, q.agents[k].agentId).Some?;
    }
  }

  /** Every action of a pass starts one of its candidates on one of its agents, and there are
      at most as many actions as candidates. */
  lemma {:induction false} DispatchAllActions(p: Pass, cands: seq<TaskState>, clock: nat -> int,
                                              actionIds: nat -> string)
    ensures var r := DispatchAll(p, cands, clock, actionIds);
            |r.actions| <= |p.actions| + |cands| &&
            forall i :: |p.actions| <= i < |r.actions| ==>
              r.actions[i].kind == StartedKind &&
              exists c, k :: c in cands && 0 <= k < |p.agents| &&
                r.actions[i].payload == StartPayload(c.taskId, p.agents[k].agentId)
  {
    if cands != [] {
      var n := |cands| - 1;
      var q := DispatchAll(p, cands[..n], clock, actionIds);
      var r := DispatchAll(p, cands, clock, actionIds);
      DispatchAllActions(p, cands[..n], clock, actionIds);
      DispatchAllKeepsIds(p, cands[..n], clock, actionIds);
      forall i | |p.actions| <= i < |r.actions|
        ensures r.actions[i].kind == StartedKind &&
                exists c, k :: c in cands && 0 <= k < |p.agents| &&
                  r.actions[i].payload == StartPayload(c.taskId, p.agents[k].agentId)
      {
        if i < |q.actions| {
          assert r.actions[i] == r.actions[..|q.actions|][i] == q.actions[i];
          var c, k :| c in cands[..n] && 0 <= k < |p.agents| &&
                      q.actions[i].payload == StartPayload(c.taskId, p.agents[k].agentId);
          assert c in cands;
        } else {
          assert cands[n] in cands;
          var k := FirstFreeAgent(q.agents).value;
          assert r.actions[i].payload == StartPayload(cands[n].taskId, p.agents[k].agentId);
        }
      }
    }
  }

  /** What a scheduling pass persists: nothing when nothing was dispatched, otherwise its
      start actions in order followed by both the task list and the agent list. */
  lemma PassWrites(tasks: seq<TaskState>, agents: seq<AgentState>, design: map<string, seq<string>>,
                   nodes: seq<NodeRuntime>, clock: nat -> int, actionIds: nat -> string)
    ensures var p := DispatchAll(Start(tasks, agents), Candidates(tasks, design, nodes), clock, actionIds);
            Persisted(p) == ActionWrites(p.actions) +
                            (if |p.actions| > 0 then [SaveTasks, SaveAgents] else [])
  {
    var cands := Candidates(tasks, design, nodes);
    var start := Start(tasks, agents);
    forall c | c in cands
      ensures exists j :: 0 <= j < |start.tasks| && start.tasks[j].taskId == c.taskId
    {
      var j :| 0 <= j < |tasks| && tasks[j] == c;
    }
    DispatchAllFlags(start, cands, clock, actionIds);
    var p := DispatchAll(start, cands, clock, actionIds);
    assert p.modifiedTasks == p.modifiedAgents == (|p.actions| > 0);
    if |p.actions| > 0 {
      assert Persisted(p) == ActionWrites(p.actions) + [SaveTasks] + [SaveAgents];
    } else {
      assert Persisted(p) == ActionWrites(p.actions) + [] + [];
    }
  }
}
