/** The queue-based scheduler: `ScheduleTask` admits a pending or failed task, marks it
    ready, and enqueues one job for it in its pool. */
module Scheduler {
  import opened Text
  import opened Tasks
  import opened FsQueue

  datatype ScheduleError =
    | LoadFailed                          // "failed to load task"
    | NotSchedulable(status: TaskStatus)  // "task is not in a schedulable state: <status>"
    | UpdateFailed                        // "failed to update task status"
    | EnqueueFailed(cause: QueueError)    // "failed to enqueue job"

  /** Only pending and failed tasks may be scheduled. */
  predicate Schedulable(s: TaskStatus) {
    s == Pending || s == Failed
  }

  const RunTaskPayload: map<string, string> := map["action" := "run_task"]

  /** `job-<task id>-<UpdatedAt in nanoseconds>`. */
  function JobId(t: Task): string {
    "job-" + t.id + "-" + IntToString(t.updatedAt)
  }

  function JobFor(t: Task): Job {
    Job(JobId(t), t.id, t.poolId, RunTaskPayload)
  }

  /** A task that scheduling made ready is refused by a second scheduling, so one admission
      enqueues one job. */
  lemma ScheduleOnce(t: Task)
    requires Schedulable(t.status)
    ensures !Schedulable(t.(status := Ready).status)
    ensures forall s: TaskStatus :: Schedulable(s) <==> s in {Pending, Failed}
  {
  }

  /** Job ids tell tasks and timestamps apart (for timestamps not before 1970): the digits
      after the last dash are the timestamp, everything between `job-` and that dash the
      task id. So jobs of different tasks never overwrite each other in a queue. */
  lemma JobIdsDistinct(t: Task, u: Task)
    requires t.updatedAt >= 0 && u.updatedAt >= 0
    requires JobId(t) == JobId(u)
    ensures t.id == u.id && t.updatedAt == u.updatedAt
  {
    var a, b := NatToString(t.updatedAt), NatToString(u.updatedAt);
    var x, y := "job-" + t.id + "-", "job-" + u.id + "-";
    assert x + a == y + b;
    DashAligned(x, a, y, b);
    DashAligned(y, b, x, a);
    assert a == (x + a)[|x|..] == (y + b)[|y|..] == b;
    NatToStringInjective(t.updatedAt, u.updatedAt);
    assert t.id == x[4..|x| - 1] == y[4..|y| - 1] == u.id;
  }

  /** Where two splittings of one string disagree, the shorter tail's separator falls inside
      the longer tail. */
  lemma DashAligned(x: string, a: string, y: string, b: string)
    requires x + a == y + b && |x| >= 1 && x[|x| - 1] == '-'
    ensures |a| < |b| ==> b[|b| - |a| - 1] == '-'
  {
    if |a| < |b| {
      assert b[|b| - |a| - 1] == (y + b)[|x| - 1] == (x + a)[|x| - 1];
    }
  }

  /** A scheduled job lands in its task's pool under its own id, where `ListJobs` reports it
      and `Dequeue` hands back exactly that job. */
  lemma ScheduledJobListed(dirs: map<string, seq<Entry>>, t: Task)
    requires AllSorted(dirs)
    requires EnqueueInto(dirs, JobFor(t)).1.None?
    ensures var q := EnqueueInto(dirs, JobFor(t)).0;
            t.poolId in q && JobId(t) in JobIds(q[t.poolId]) &&
            Lookup(q[t.poolId], JobId(t) + JsonExt) == Some(Entry(JobId(t) + JsonExt, JobFile(JobFor(t))))
  {
    var d := DirOf(dirs, t.poolId);
    EnqueueListed(d, JobFor(t));
  }

  class Scheduler {
    const store: TaskStore
    const queue: FilesystemQueue

    constructor(store: TaskStore, queue: FilesystemQueue)
      ensures this.store == store && this.queue == queue
    {
      this.store, this.queue := store, queue;
    }

    /** `ScheduleTask`: load, check the status, save the task as ready, then enqueue its job.
        The task is saved before the job is enqueued, so a failed enqueue leaves it ready. */
    method ScheduleTask(taskId: string) returns (err: Option<ScheduleError>)
      requires store.Valid() && queue.Valid()
      modifies store, queue
      ensures store.Valid() && queue.Valid()
      ensures taskId !in old(store.tasks) ==> err == Some(LoadFailed) && unchanged(store, queue)
      ensures taskId in old(store.tasks) && !Schedulable(old(store.tasks)[taskId].status) ==>
                err == Some(NotSchedulable(old(store.tasks)[taskId].status)) && unchanged(store, queue)
      ensures taskId in old(store.tasks) && Schedulable(old(store.tasks)[taskId].status) ==>
                var t := old(store.tasks)[taskId];
                var ready := t.(status := Ready);
                store.outcomes == Rest(old(store.outcomes)) && store.attempts == old(store.attempts) &&
                if !SaveSucceeds(old(store.outcomes)) then
                  err == Some(UpdateFailed) && store.tasks == old(store.tasks) && unchanged(queue)
                else
                  var (dirs, qerr) := EnqueueInto(old(queue.queue), JobFor(ready));
                  store.tasks == old(store.tasks)[taskId := ready] &&
                  queue.queue == dirs && queue.processing == old(queue.processing) &&
                  err == (if qerr.Some? then Some(EnqueueFailed(qerr.value)) else None)
    {
      var loaded := store.LoadTask(taskId);
      if loaded.None? {
        return Some(LoadFailed);
      }
      var task := loaded.value;
      if task.status != Pending && task.status != Failed {
        return Some(NotSchedulable(task.status));
      }
      task := task.(status := Ready);
      var saved := store.SaveTask(task);
      if !saved {
        return Some(UpdateFailed);
      }
      var job := Job("job-" + task.id + "-" + IntToString(task.updatedAt), task.id, task.poolId,
                     map["action" := "run_task"]);
      var qerr := queue.Enqueue(job);
      if qerr.Some? {
        return Some(EnqueueFailed(qerr.value));
      }
      return None;
    }
  }
}
