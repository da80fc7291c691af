/** The workspace repository shared by the dependency-aware scheduler and the task executor:
    the stored task, agent and runtime-node lists, the node designs, and the history. The
    repository's own storage format is not modelled; what a caller writes is recorded in
    order as a log of writes. */
module Persistence {
  import opened Text

  /** A JSON value as the executor reads it from a task's inputs: a string, a list, or any
      other value, carried with its `%v` rendering. */
  datatype Value = Str(text: string) | List(items: seq<Value>) | Other(rendered: string)

  datatype TaskState = TaskState(taskId: string, nodeId: string, status: string,
                                 assignedAgent: string, updatedAt: int, inputs: map<string, Value>)

  datatype NodeRuntime = NodeRuntime(nodeId: string, status: string)

  datatype AgentState = AgentState(agentId: string, maxParallel: int, runningTasks: seq<string>)

  /** A history action with its string payload. */
  datatype Action = Action(id: string, at: int, kind: string, workspaceId: string,
                           payload: map<string, string>)

  /** A write to the repository. */
  datatype Write = AppendAction(action: Action) | SaveTasks | SaveAgents

  function ActionWrites(actions: seq<Action>): (r: seq<Write>)
    ensures |r| == |actions| && forall i :: 0 <= i < |actions| ==> r[i] == AppendAction(actions[i])
  {
    if actions == [] then [] else [AppendAction(actions[0])] + ActionWrites(actions[1..])
  }

  lemma ActionWritesAppend(actions: seq<Action>, a: Action)
    ensures ActionWrites(actions + [a]) == ActionWrites(actions) + [AppendAction(a)]
  {
    var l := ActionWrites(actions + [a]);
    var r := ActionWrites(actions) + [AppendAction(a)];
    assert |l| == |r|;
    forall i | 0 <= i < |l| ensures l[i] == r[i] {
      if i < |actions| {
        assert (actions + [a])[i] == actions[i];
      }
    }
  }

  /** The position of the first task entry with this id. */
  function FirstTask(tasks: seq<TaskState>, id: string): (r: Option<nat>)
    ensures r.Some? ==> r.value < |tasks| && tasks[r.value].taskId == id &&
                        forall j :: 0 <= j < r.value ==> tasks[j].taskId != id
    ensures r.None? ==> forall j :: 0 <= j < |tasks| ==> tasks[j].taskId != id
  {
    if tasks == [] then None
    else if tasks[0].taskId == id then Some(0)
    else match FirstTask(tasks[1..], id)
      case None => None
      case Some(k) => Some(k + 1)
  }

  class Workspace {
    var tasks: seq<TaskState>
    var agents: seq<AgentState>
    const nodes: seq<NodeRuntime>
    const design: map<string, seq<string>>
    var writes: seq<Write>

    constructor(tasks: seq<TaskState>, agents: seq<AgentState>, nodes: seq<NodeRuntime>,
                design: map<string, seq<string>>)
      ensures this.tasks == tasks && this.agents == agents && this.nodes == nodes
      ensures this.design == design && writes == []
    {
      this.tasks, this.agents, this.nodes, this.design, writes := tasks, agents, nodes, design, [];
    }

    /** Appending actions to the history, one write per action, in order. */
    method AppendActions(actions: seq<Action>)
      modifies this
      ensures writes == old(writes) + ActionWrites(actions)
      ensures tasks == old(tasks) && agents == old(agents)
    {
      var k := 0;
      while k < |actions|
        invariant 0 <= k <= |actions|
        invariant writes == old(writes) + ActionWrites(actions[..k])
        invariant tasks == old(tasks) && agents == old(agents)
      {
        assert actions[..k + 1] == actions[..k] + [actions[k]];
        ActionWritesAppend(actions[..k], actions[k]);
        writes := writes + [AppendAction(actions[k])];
        k := k + 1;
      }
      assert actions[..|actions|] == actions;
    }
  }
}
