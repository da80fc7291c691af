/** The file-based task executor: one attempt of running the agent runner on a task. The
    subprocess is not run here; what it reports (a failure to open its input pipe, or its exit
    status and combined output) is a parameter, and so are the attempt id and the clock. */
module Executor {
  import opened Text
  import opened Tasks

  /** What running the agent runner reported. */
  datatype Run =
    | PipeFailed(message: string)                   // the input pipe could not be created
    | Exited(error: Option<string>, output: string)  // the exit error, if any, and the output

  datatype ExecError =
    | AttemptSaveFailed        // "failed to save attempt"
    | StatusUpdateFailed       // "failed to update task status"
    | RunFailed(message: string)
    | AttemptUpdateFailed      // "failed to update attempt"
    | TaskUpdateFailed         // "failed to update task"

  const FailurePrefix := "Execution failed: "

  /** The task description fed to the agent runner on its standard input. */
  const YamlHead := "version: \"1\"\ntask:\n  id: "
  const YamlTitle := "\n  title: "
  const YamlPrd := "\n  repo: \".\"\n  prd:\n    text: \"Execute task: "
  const YamlTail := "\"\nrunner:\n  max_loops: 5\n  worker:\n    cli: \"codex\"\n"

  function TaskYaml(t: Task): (r: string)
    ensures OccursAt(t.id, r, |YamlHead|)
    ensures OccursAt(t.title, r, |YamlHead| + |t.id| + |YamlTitle|)
    ensures OccursAt(t.title, r, |YamlHead| + |t.id| + |YamlTitle| + |t.title| + |YamlPrd|)
    ensures HasPrefix(r, YamlHead) && HasSuffix(r, YamlTail)
    ensures |r| == |YamlHead| + |YamlTitle| + |YamlPrd| + |YamlTail| + |t.id| + 2 * |t.title|
  {
    YamlLayout(YamlHead, t.id, YamlTitle, t.title, YamlPrd, YamlTail);
    YamlHead + t.id + YamlTitle + t.title + YamlPrd + t.title + YamlTail
  }

  /** Where the id and the two copies of the title sit in the filled-in template. */
  lemma YamlLayout(head: string, id: string, mid: string, title: string, prd: string, tail: string)
    ensures var r := head + id + mid + title + prd + title + tail;
            OccursAt(id, r, |head|) &&
            OccursAt(title, r, |head| + |id| + |mid|) &&
            OccursAt(title, r, |head| + |id| + |mid| + |title| + |prd|) &&
            HasPrefix(r, head) && HasSuffix(r, tail)
  {
    var r := head + id + mid + title + prd + title + tail;
    assert r[..|head|] == head;
    assert r[|r| - |tail|..] == tail;
    var i := |head|;
    assert r[i..i + |id|] == id;
    var j := i + |id| + |mid|;
    assert r[j..j + |title|] == title;
    var k := j + |title| + |prd|;
    assert r[k..k + |title|] == title;
  }

  /** The new attempt: running, for this task, from `startedAt`. */
  function NewAttempt(id: string, t: Task, startedAt: int): (a: Attempt)
    ensures a.taskId == t.id && a.status == AttemptRunning && a.finishedAt.None?
  {
    Attempt(id, t.id, AttemptRunning, startedAt, None, "")
  }

  /** The task as it is saved before the run. */
  function Started(t: Task, now: int): (s: Task)
    ensures s.id == t.id && s.status == Running && s.startedAt == Some(now) && s.doneAt == t.doneAt
  {
    t.(status := Running, startedAt := Some(now))
  }

  /** The attempt and task after the run exited: both succeeded, or both failed with the
      error and the output in the summary; either way finished at the same instant. */
  function Settled(a: Attempt, t: Task, error: Option<string>, output: string, finishedAt: int): (r: (Attempt, Task))
    ensures r.0.id == a.id && r.0.taskId == a.taskId && r.1.id == t.id && r.1.startedAt == t.startedAt
    ensures (r.0.status == AttemptSucceeded <==> error.None?) && (r.1.status == Succeeded <==> error.None?)
    ensures r.0.status != AttemptRunning && (r.1.status == Succeeded || r.1.status == Failed)
    ensures r.0.finishedAt == r.1.doneAt == Some(finishedAt)
    ensures error.Some? ==> HasPrefix(r.0.errorSummary, FailurePrefix + error.value) &&
                            HasSuffix(r.0.errorSummary, "\nOutput: " + output)
    ensures error.None? ==> r.0.errorSummary == a.errorSummary
  {
    match error
    case None =>
      (a.(status := AttemptSucceeded, finishedAt := Some(finishedAt)),
       t.(status := Succeeded, doneAt := Some(finishedAt)))
    case Some(e) =>
      var summary := FailurePrefix + e + "\nOutput: " + output;
      assert summary[..|FailurePrefix + e|] == FailurePrefix + e;
      assert summary[|summary| - |"\nOutput: " + output|..] == "\nOutput: " + output;
      (a.(status := AttemptFailed, finishedAt := Some(finishedAt), errorSummary := summary),
       t.(status := Failed, doneAt := Some(finishedAt)))
  }

  /** `handleExecutionError`: both records fail at `now`, the attempt carrying the error. */
  function Aborted(a: Attempt, t: Task, message: string, now: int): (r: (Attempt, Task))
    ensures r.0.id == a.id && r.0.taskId == a.taskId && r.1.id == t.id && r.1.startedAt == t.startedAt
    ensures r.0.status == AttemptFailed && r.1.status == Failed
    ensures r.0.finishedAt == r.1.doneAt == Some(now) && r.0.errorSummary == message
  {
    (a.(status := AttemptFailed, finishedAt := Some(now), errorSummary := message),
     t.(status := Failed, doneAt := Some(now)))
  }

  /** The attempt and task a run leaves behind. */
  function Outcome(a: Attempt, t: Task, run: Run, finishedAt: int): (Attempt, Task) {
    match run
    case PipeFailed(m) => Aborted(a, t, m, finishedAt)
    case Exited(e, out) => Settled(a, t, e, out, finishedAt)
  }

  /** Once the task was saved as running, the run always ends with the attempt and the task
      agreeing: both failed, or both succeeded, with the task done when the attempt finished. */
  lemma OutcomeAgrees(a: Attempt, t: Task, run: Run, finishedAt: int)
    ensures var (a', t') := Outcome(a, t, run, finishedAt);
            a'.id == a.id && t'.id == t.id &&
            (t'.status == Succeeded <==> a'.status == AttemptSucceeded) &&
            (t'.status == Failed <==> a'.status == AttemptFailed) &&
            (t'.status == Succeeded <==> run.Exited? && run.error.None?) &&
            a'.finishedAt == t'.doneAt == Some(finishedAt)
  {
  }

  class Executor {
    const store: TaskStore

    constructor(store: TaskStore)
      ensures this.store == store
    {
      this.store := store;
    }

    /** `handleExecutionError`: fail both records, save them ignoring the outcome of each save,
        and hand back the attempt with the original error. */
    method HandleExecutionError(a: Attempt, t: Task, message: string, now: int)
      returns (attempt: Attempt, task: Task, err: ExecError)
      requires store.Valid()
      modifies store
      ensures store.Valid()
      ensures (attempt, task) == Aborted(a, t, message, now) && err == RunFailed(message)
      ensures var o := old(store.outcomes);
              store.outcomes == Rest(Rest(o)) &&
              store.attempts == (if SaveSucceeds(o) then old(store.attempts)[a.id := attempt] else old(store.attempts)) &&
              store.tasks == (if SaveSucceeds(Rest(o)) then old(store.tasks)[t.id := task] else old(store.tasks))
    {
      attempt := a.(finishedAt := Some(now), status := AttemptFailed, errorSummary := message);
      task := t.(status := Failed, doneAt := Some(now));
      var _ := store.SaveAttempt(attempt);
      var _ := store.SaveTask(task);
      err := RunFailed(message);
    }

    /** `ExecuteTask`. A failure to save the new attempt or the running task ends the call
        with no attempt; after that the run's outcome is saved, attempt first, and a failure
        to save either is reported with the attempt. */
    method ExecuteTask(t: Task, attemptId: string, attemptStart: int, taskStart: int, run: Run, finishedAt: int)
      returns (attempt: Option<Attempt>, task: Task, err: Option<ExecError>)
      requires store.Valid()
      modifies store
      ensures store.Valid()
      ensures var o := old(store.outcomes);
              var a0 := NewAttempt(attemptId, t, attemptStart);
              var s := Started(t, taskStart);
              if !SaveSucceeds(o) then
                attempt == None && task == t && err == Some(AttemptSaveFailed) &&
                store.outcomes == Rest(o) && unchanged(store`tasks, store`attempts)
              else if !SaveSucceeds(Rest(o)) then
                attempt == None && task == s && err == Some(StatusUpdateFailed) &&
                store.outcomes == Rest(Rest(o)) &&
                store.attempts == old(store.attempts)[attemptId := a0] && store.tasks == old(store.tasks)
              else
                var o2 := Rest(Rest(o));
                var (a1, t1) := Outcome(a0, s, run, finishedAt);
                var attemptSaved := SaveSucceeds(o2);
                var taskSaved := (run.PipeFailed? || attemptSaved) && SaveSucceeds(Rest(o2));
                attempt == Some(a1) && task == t1 &&
                err == (if run.PipeFailed? then Some(RunFailed(run.message))
                        else if !attemptSaved then Some(AttemptUpdateFailed)
                        else if !taskSaved then Some(TaskUpdateFailed)
                        else None) &&
                store.outcomes == (if run.Exited? && !attemptSaved then Rest(o2) else Rest(Rest(o2))) &&
                store.attempts == old(store.attempts)[attemptId := if attemptSaved then a1 else a0] &&
                store.tasks == old(store.tasks)[t.id := if taskSaved then t1 else s]
    {
      var a := Attempt(attemptId, t.id, AttemptRunning, attemptStart, None, "");
      assert a == NewAttempt(attemptId, t, attemptStart);
      var ok := store.SaveAttempt(a);
      if !ok {
        return None, t, Some(AttemptSaveFailed);
      }
      task := t.(status := Running, startedAt := Some(taskStart));
      assert task == Started(t, taskStart);
      ok := store.SaveTask(task);
      if !ok {
        return None, task, Some(StatusUpdateFailed);
      }
      match run
      case PipeFailed(m) =>
        var a', t', e := HandleExecutionError(a, task, m, finishedAt);
        return Some(a'), t', Some(e);
      case Exited(error, output) =>
        var a', t', e := SaveRunOutcome(a, task, error, output, finishedAt);
        return Some(a'), t', e;
    }

    /** The end of `ExecuteTask` after the run exited: settle both records, then save the
        attempt and, only when that succeeded, the task; report the first save that failed. */
    method SaveRunOutcome(a: Attempt, t: Task, error: Option<string>, output: string, finishedAt: int)
      returns (attempt: Attempt, task: Task, err: Option<ExecError>)
      requires store.Valid()
      modifies store
      ensures store.Valid()
      ensures (attempt, task) == Settled(a, t, error, output, finishedAt)
      ensures var o := old(store.outcomes);
              var attemptSaved := SaveSucceeds(o);
              var taskSaved := attemptSaved && SaveSucceeds(Rest(o));
              err == (if !attemptSaved then Some(AttemptUpdateFailed)
                      else if !taskSaved then Some(TaskUpdateFailed) else None) &&
              store.outcomes == (if attemptSaved then Rest(Rest(o)) else Rest(o)) &&
              store.attempts == (if attemptSaved then old(store.attempts)[a.id := attempt] else old(store.attempts)) &&
              store.tasks == (if taskSaved then old(store.tasks)[t.id := task] else old(store.tasks))
    {
      attempt := a.(finishedAt := Some(finishedAt));
      task := t;
      if error.Some? {
        attempt := attempt.(status := AttemptFailed, errorSummary := FailurePrefix + error.value + "\nOutput: " + output);
        task := task.(status := Failed, doneAt := Some(finishedAt));
      } else {
        attempt := attempt.(status := AttemptSucceeded);
        task := task.(status := Succeeded, doneAt := Some(finishedAt));
      }
      var ok := store.SaveAttempt(attempt);
      if !ok {
        return attempt, task, Some(AttemptUpdateFailed);
      }
      ok := store.SaveTask(task);
      if !ok {
        return attempt, task, Some(TaskUpdateFailed);
      }
      return attempt, task, None;
    }
  }
}
