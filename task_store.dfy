/** The task and attempt records of the file-based orchestrator, and the store that keeps
    them. The store's file layout is not part of this model: it keeps the last saved task
    and attempt under their ids. Whether a save reaches the disk is scripted by `outcomes`:
    each save consumes one outcome, `false` being an I/O failure, and once the script is
    exhausted every save succeeds. */
module Tasks {
  import opened Text

  datatype TaskStatus = Pending | Ready | Running | Succeeded | Failed | Canceled | Blocked

  datatype AttemptStatus = AttemptRunning | AttemptSucceeded | AttemptFailed

  /** Times are Unix nanoseconds. */
  datatype Task = Task(id: string, title: string, status: TaskStatus, poolId: string,
                       updatedAt: int, startedAt: Option<int>, doneAt: Option<int>)

  datatype Attempt = Attempt(id: string, taskId: string, status: AttemptStatus, startedAt: int,
                             finishedAt: Option<int>, errorSummary: string)

  predicate SaveSucceeds(outcomes: seq<bool>) {
    outcomes == [] || outcomes[0]
  }

  function Rest(outcomes: seq<bool>): seq<bool> {
    if outcomes == [] then [] else outcomes[1..]
  }

  class TaskStore {
    var tasks: map<string, Task>
    var attempts: map<string, Attempt>
    var outcomes: seq<bool>

    /** Every record is stored under its own id. */
    ghost predicate Valid()
      reads this
    {
      (forall id :: id in tasks ==> tasks[id].id == id) &&
      (forall id :: id in attempts ==> attempts[id].id == id)
    }

    constructor(outcomes: seq<bool>)
      ensures Valid() && tasks == map[] && attempts == map[] && this.outcomes == outcomes
    {
      tasks, attempts, this.outcomes := map[], map[], outcomes;
    }

    method LoadTask(id: string) returns (r: Option<Task>)
      ensures r == (if id in tasks then Some(tasks[id]) else None)
    {
      if id in tasks {
        return Some(tasks[id]);
      }
      return None;
    }

    method SaveTask(t: Task) returns (ok: bool)
      requires Valid()
      modifies this
      ensures Valid()
      ensures ok == SaveSucceeds(old(outcomes)) && outcomes == Rest(old(outcomes))
      ensures tasks == (if ok then old(tasks)[t.id := t] else old(tasks)) && attempts == old(attempts)
    {
      ok := SaveSucceeds(outcomes);
      outcomes := Rest(outcomes);
      if ok {
        tasks := tasks[t.id := t];
      }
    }

    method SaveAttempt(a: Attempt) returns (ok: bool)
      requires Valid()
      modifies this
      ensures Valid()
      ensures ok == SaveSucceeds(old(outcomes)) && outcomes == Rest(old(outcomes))
      ensures attempts == (if ok then old(attempts)[a.id := a] else old(attempts)) && tasks == old(tasks)
    {
      ok := SaveSucceeds(outcomes);
      outcomes := Rest(outcomes);
      if ok {
        attempts := attempts[a.id := a];
      }
    }
  }
}
