/** The repository-backed task executor: it builds the agent runner's task description from a
    task's inputs, records the start and the result of the run in the history, and marks the
    stored task succeeded or failed. The subprocess is not run here: its exit error and output
    are parameters, as are the generated ids and the clock. */
module ExecutorV2 {
  import opened Text
  import opened Persistence

  /** Go's `%v` rendering of a decoded JSON value: a string as itself, a list as its elements'
      renderings between brackets, separated by single spaces. */
  function Show(v: Value): string
    decreases v
  {
    match v
    case Str(s) => s
    case Other(r) => r
    case List(items) => "[" + Join(seq(|items|, i requires 0 <= i < |items| => Show(items[i])), " ") + "]"
  }

  /** The goal input when it is a string, and the empty string otherwise. */
  function GoalOf(inputs: map<string, Value>): string {
    if "goal" in inputs && inputs["goal"].Str? then inputs["goal"].text else ""
  }

  /** The constraints input when it is a list. */
  function ConstraintsOf(inputs: map<string, Value>): Option<seq<Value>> {
    if "constraints" in inputs && inputs["constraints"].List? then Some(inputs["constraints"].items) else None
  }

  /** One line per constraint, each introduced by a newline and a dash. */
  function ConstraintLines(items: seq<Value>): string {
    if items == [] then "" else ConstraintLines(items[..|items| - 1]) + "\n- " + Show(items[|items| - 1])
  }

  const ConstraintsHeading := "\n\nConstraints:"

  /** The prompt text of a task. */
  function PromptText(task: TaskState): string {
    "Execute task: " + task.taskId + "\n\nGoal:\n" + GoalOf(task.inputs) +
    match ConstraintsOf(task.inputs)
    case None => ""
    case Some(items) => ConstraintsHeading + ConstraintLines(items)
  }

  const Pad := "      "

  /** The lines, each behind six spaces and ended by a newline. */
  function Indented(lines: seq<string>): string {
    if lines == [] then "" else Indented(lines[..|lines| - 1]) + Pad + lines[|lines| - 1] + "\n"
  }

  const YamlHead := "version: \"1\"\ntask:\n  id: "
  const YamlTitle := "\n  title: \"Task "
  const YamlPrd := "\"\n  repo: \".\"\n  prd:\n    text: |\n"
  const YamlTail := "runner:\n  max_loops: 5\n  worker:\n    cli: \"codex\"\n"

  /** The task description: the prompt becomes the literal block of the PRD text. */
  function TaskYaml(task: TaskState): string {
    YamlHead + task.taskId + YamlTitle + task.taskId + YamlPrd +
    Indented(Split(PromptText(task), '\n')) + YamlTail
  }

  /** `generateTaskYAML`, building the prompt and its indented block by appending. */
  method GenerateTaskYaml(task: TaskState) returns (yaml: string)
    ensures yaml == TaskYaml(task)
  {
    var goal := if "goal" in task.inputs && task.inputs["goal"].Str? then task.inputs["goal"].text else "";
    var promptText := "Execute task: " + task.taskId + "\n\nGoal:\n" + goal;
    if "constraints" in task.inputs && task.inputs["constraints"].List? {
      var constraints := task.inputs["constraints"].items;
      promptText := promptText + "\n\nConstraints:";
      var head := promptText;
      for i := 0 to |constraints|
        invariant promptText == head + ConstraintLines(constraints[..i])
      {
        assert constraints[..i + 1][..i] == constraints[..i];
        promptText := promptText + "\n- " + Show(constraints[i]);
      }
      assert constraints[..|constraints|] == constraints;
    }
    assert promptText == PromptText(task);
    var lines := Split(promptText, '\n');
    var promptTextIndented := "";
    for i := 0 to |lines|
      invariant promptTextIndented == Indented(lines[..i])
    {
      assert lines[..i + 1][..i] == lines[..i];
      promptTextIndented := promptTextIndented + "      " + lines[i] + "\n";
    }
    assert lines[..|lines|] == lines;
    yaml := YamlHead + task.taskId + YamlTitle + task.taskId + YamlPrd + promptTextIndented + YamlTail;
  }

  /** Go's `strings.Join` over a list with one more part. */
  lemma {:induction false} JoinSnoc(xs: seq<string>, y: string, sep: string)
    requires |xs| >= 1
    ensures Join(xs + [y], sep) == Join(xs, sep) + sep + y
    decreases |xs|
  {
    if |xs| == 1 {
      assert (xs + [y])[1..] == [y];
    } else {
      assert (xs + [y])[1..] == xs[1..] + [y];
      JoinSnoc(xs[1..], y, sep);
    }
  }

  function Bullets(items: seq<Value>): (r: seq<string>)
    ensures |r| == |items| && forall i :: 0 <= i < |items| ==> r[i] == "- " + Show(items[i])
  {
    seq(|items|, i requires 0 <= i < |items| => "- " + Show(items[i]))
  }

  /** The constraint lines are the bullets, one per line, following the heading's lines. */
  lemma {:induction false} ConstraintLinesJoin(head: seq<string>, items: seq<Value>)
    requires |head| >= 1
    ensures Join(head + Bullets(items), "\n") == Join(head, "\n") + ConstraintLines(items)
    decreases |items|
  {
    if items != [] {
      var init := items[..|items| - 1];
      ConstraintLinesJoin(head, init);
      assert head + Bullets(items) == (head + Bullets(init)) + ["- " + Show(items[|items| - 1])];
      JoinSnoc(head + Bullets(init), "- " + Show(items[|items| - 1]), "\n");
    } else {
      assert head + Bullets(items) == head;
    }
  }

  /** The prompt's lines, when neither the id, the goal nor any constraint holds a line break:
      the task line, a blank line, the goal heading and the goal, then, only when the
      constraints input is a list, a blank line, the constraints heading and one bullet per
      constraint in order. */
  lemma PromptLines(task: TaskState)
    requires Lacks(task.taskId, '\n') && Lacks(GoalOf(task.inputs), '\n')
    requires ConstraintsOf(task.inputs).Some? ==>
               forall c :: c in ConstraintsOf(task.inputs).value ==> Lacks(Show(c), '\n')
    ensures Split(PromptText(task), '\n') ==
              BaseLines(task) +
              match ConstraintsOf(task.inputs)
              case None => []
              case Some(items) => ["", "Constraints:"] + Bullets(items)
  {
    var base := BaseLines(task);
    BaseLinesJoin(task);
    match ConstraintsOf(task.inputs)
    case None =>
      assert PromptText(task) == Join(base, "\n");
      SplitJoin(base, '\n');
    case Some(items) =>
      var lines := base + ["", "Constraints:"] + Bullets(items);
      ConstraintPromptJoin(task, items);
      forall i | 0 <= i < |lines| ensures Lacks(lines[i], '\n') {
        if i >= |base| + 2 {
          var c := items[i - |base| - 2];
          assert c in items;
          LacksConcat("- ", Show(c), '\n');
        }
      }
      SplitJoin(lines, '\n');
  }

  /** The first four lines of the prompt. */
  function BaseLines(task: TaskState): (r: seq<string>)
    ensures |r| == 4
  {
    ["Execute task: " + task.taskId, "", "Goal:", GoalOf(task.inputs)]
  }

  /** The first four lines joined, with no line among them broken, when neither the id nor the
      goal holds a line break. */
  lemma BaseLinesJoin(task: TaskState)
    requires Lacks(task.taskId, '\n') && Lacks(GoalOf(task.inputs), '\n')
    ensures Join(BaseLines(task), "\n") == "Execute task: " + task.taskId + "\n\nGoal:\n" + GoalOf(task.inputs)
    ensures forall i :: 0 <= i < 4 ==> Lacks(BaseLines(task)[i], '\n')
  {
    var base := BaseLines(task);
    var g := GoalOf(task.inputs);
    assert base[1..][1..][1..] == [g];
    assert Join(base[1..][1..], "\n") == "Goal:" + "\n" + g;
    assert Join(base[1..], "\n") == "" + "\n" + ("Goal:" + "\n" + g);
    LacksConcat("Execute task: ", task.taskId, '\n');
  }

  /** With a constraints list, the prompt is the base lines, a blank line, the heading and the
      bullets, joined by newlines. */
  lemma ConstraintPromptJoin(task: TaskState, items: seq<Value>)
    requires ConstraintsOf(task.inputs) == Some(items)
    requires Join(BaseLines(task), "\n") == "Execute task: " + task.taskId + "\n\nGoal:\n" + GoalOf(task.inputs)
    ensures PromptText(task) == Join(BaseLines(task) + ["", "Constraints:"] + Bullets(items), "\n")
  {
    var base := BaseLines(task);
    var head := base + ["", "Constraints:"];
    JoinSnoc(base, "", "\n");
    JoinSnoc(base + [""], "Constraints:", "\n");
    assert base + [""] + ["Constraints:"] == head;
    ConstraintLinesJoin(head, items);
  }

  function Padded(lines: seq<string>): (r: seq<string>)
    ensures |r| == |lines| && forall i :: 0 <= i < |lines| ==> r[i] == Pad + lines[i]
  {
    seq(|lines|, i requires 0 <= i < |lines| => Pad + lines[i])
  }

  /** The indented block is the padded lines joined by newlines, ending in a newline. */
  lemma {:induction false} IndentedJoin(lines: seq<string>)
    ensures Indented(lines) == Join(Padded(lines) + [""], "\n")
    decreases |lines|
  {
    if lines != [] {
      var init := lines[..|lines| - 1];
      var last := Pad + lines[|lines| - 1];
      var p := Padded(init);
      IndentedJoin(init);
      assert Indented(lines) == Join(p + [""], "\n") + last + "\n";
      assert Padded(lines) == p + [last];
      if init == [] {
        assert p + [last] + [""] == [last, ""];
      } else {
        JoinSnoc(p, "", "\n");
        JoinSnoc(p, last, "\n");
        JoinSnoc(p + [last], "", "\n");
      }
    }
  }

  /** Every prompt line reappears in the PRD block behind six spaces, and the block ends with
      a newline; removing the six spaces and rejoining the lines gives the prompt back. */
  lemma PrdBlock(prompt: string)
    ensures var lines := Split(prompt, '\n');
            var block := Split(Indented(lines), '\n');
            block == Padded(lines) + [""] &&
            Join(seq(|lines|, i requires 0 <= i < |lines| => block[i][|Pad|..]), "\n") == prompt
  {
    var lines := Split(prompt, '\n');
    IndentedJoin(lines);
    var padded := Padded(lines) + [""];
    forall i | 0 <= i < |padded| ensures Lacks(padded[i], '\n') {
      if i < |lines| {
        LacksConcat(Pad, lines[i], '\n');
      }
    }
    SplitJoin(padded, '\n');
    var block := Split(Indented(lines), '\n');
    assert seq(|lines|, i requires 0 <= i < |lines| => block[i][|Pad|..]) == lines by {
      forall i | 0 <= i < |lines| ensures block[i][|Pad|..] == lines[i] {
        assert block[i] == Pad + lines[i];
      }
    }
    JoinSplit(prompt, '\n');
  }

  const AttemptStartedKind := "task.attempt_started"
  const SucceededKind := "task.succeeded"
  const FailedKind := "task.failed"
  const WorkspacePlaceholder := "TODO-WS-ID"

  /** Go's `%v` rendering of an error value: the message, or `<nil>` for no error. */
  function ErrorText(error: Option<string>): string {
    match error
    case None => "<nil>"
    case Some(e) => e
  }

  function StartAction(id: string, at: int, taskId: string, attemptId: string): Action {
    Action(id, at, AttemptStartedKind, WorkspacePlaceholder,
           map["task_id" := taskId, "attempt_id" := attemptId])
  }

  function ResultAction(id: string, at: int, taskId: string, attemptId: string,
                        error: Option<string>, output: string): Action {
    Action(id, at, if error.None? then SucceededKind else FailedKind, WorkspacePlaceholder,
           map["task_id" := taskId, "attempt_id" := attemptId, "output" := output,
               "error" := ErrorText(error)])
  }

  /** The two history entries of a run name the same task and attempt, and the result is a
      success exactly when the run returned no error. */
  lemma ActionsAgree(startId: string, resultId: string, startAt: int, finishedAt: int,
                     taskId: string, attemptId: string, error: Option<string>, output: string)
    ensures var s := StartAction(startId, startAt, taskId, attemptId);
            var r := ResultAction(resultId, finishedAt, taskId, attemptId, error, output);
            s.payload["task_id"] == r.payload["task_id"] == taskId &&
            s.payload["attempt_id"] == r.payload["attempt_id"] == attemptId &&
            (r.kind == SucceededKind <==> error.None?) && (r.kind == FailedKind <==> error.Some?) &&
            r.payload["output"] == output && (error.Some? ==> r.payload["error"] == error.value)
  {
  }

  /** The stored tasks after a run: the first entry for the task gets the run's status and
      time, and every other entry is kept. */
  function Settle(tasks: seq<TaskState>, taskId: string, success: bool, at: int): (r: seq<TaskState>)
    ensures |r| == |tasks|
    ensures FirstTask(tasks, taskId).None? ==> r == tasks
    ensures FirstTask(tasks, taskId).Some? ==>
              var k := FirstTask(tasks, taskId).value;
              (forall j :: 0 <= j < |tasks| && j != k ==> r[j] == tasks[j]) &&
              r[k].taskId == taskId && r[k].nodeId == tasks[k].nodeId && r[k].inputs == tasks[k].inputs &&
              r[k].assignedAgent == tasks[k].assignedAgent && r[k].updatedAt == at &&
              (r[k].status == "succeeded" <==> success) && (r[k].status == "failed" <==> !success)
  {
    match FirstTask(tasks, taskId)
    case None => tasks
    case Some(k) => tasks[k := tasks[k].(status := if success then "succeeded" else "failed", updatedAt := at)]
  }

  /** The loop over the loaded tasks: update the first entry for the task, if any. */
  method SettleLoaded(tasks: seq<TaskState>, taskId: string, success: bool, at: int)
    returns (updated: seq<TaskState>, found: bool)
    ensures updated == Settle(tasks, taskId, success, at) && found == FirstTask(tasks, taskId).Some?
  {
    updated, found := tasks, false;
    for i := 0 to |tasks|
      invariant forall j :: 0 <= j < i ==> tasks[j].taskId != taskId
    {
      if tasks[i].taskId == taskId {
        updated := tasks[i := tasks[i].(status := if success then "succeeded" else "failed", updatedAt := at)];
        return updated, true;
      }
    }
  }

  /** `Execute`. Both history appends are made and their errors discarded; the tasks are
      saved only when they could be loaded and hold the task, and a failing save (whose error
      is discarded too) leaves the stored tasks as they were; the run's own error is
      returned. */
  method Execute(ws: Workspace, task: TaskState, attemptId: string, startActionId: string, startAt: int,
                 error: Option<string>, output: string, resultActionId: string, finishedAt: int,
                 tasksLoaded: bool, tasksSaved: bool)
    returns (stdin: string, err: Option<string>)
    modifies ws
    ensures stdin == TaskYaml(task) && err == error
    ensures var found := tasksLoaded && FirstTask(old(ws.tasks), task.taskId).Some?;
            ws.writes == old(ws.writes) +
              [AppendAction(StartAction(startActionId, startAt, task.taskId, attemptId)),
               AppendAction(ResultAction(resultActionId, finishedAt, task.taskId, attemptId, error, output))] +
              (if found then [SaveTasks] else []) &&
            ws.tasks == (if found && tasksSaved then Settle(old(ws.tasks), task.taskId, error.None?, finishedAt)
                         else old(ws.tasks)) &&
            ws.agents == old(ws.agents)
  {
    stdin := GenerateTaskYaml(task);
    var start := Action(startActionId, startAt, "task.attempt_started", "TODO-WS-ID",
                        map["task_id" := task.taskId, "attempt_id" := attemptId]);
    ws.writes := ws.writes + [AppendAction(start)];
    var success := error.None?;
    var kind := "task.succeeded";
    if !success {
      kind := "task.failed";
    }
    var result := Action(resultActionId, finishedAt, kind, "TODO-WS-ID",
                         map["task_id" := task.taskId, "attempt_id" := attemptId, "output" := output,
                             "error" := ErrorText(error)]);
    ws.writes := ws.writes + [AppendAction(result)];
    if tasksLoaded {
      var updated, found := SettleLoaded(ws.tasks, task.taskId, success, finishedAt);
      if found {
        if tasksSaved {
          ws.tasks := updated;
        }
        ws.writes := ws.writes + [SaveTasks];
      }
    }
    err := error;
  }
}
