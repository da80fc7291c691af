/** The worker executor: it keeps one persistent sandbox container per task, started by
    `Start`, used by `RunWorker` and released by `Stop`. The sandbox provider is not part of
    this model: its replies (the started container's id or an error, the result of running a
    command, the outcome of stopping) are parameters, and so are the clock and the resolution of
    the repository path to an absolute one. */
module Worker {
  import opened Text

  datatype WorkerConfig = WorkerConfig(maxRunTimeSec: int, dockerImage: string)

  datatype WorkerError =
    | NotStarted                                 // "container not started: call Start() first"
    | AlreadyStarted(id: string)                 // "container already started (ID: <id>)"
    | AbsPathFailed(path: string, cause: string) // "failed to get absolute path for <path>"
    | StartFailed(cause: string)                 // "failed to start container"
    | NoContainer                                // "no container to stop"
    | StopFailed(cause: string)                  // "failed to stop container"

  /** What the sandbox reports for one command run inside the container. */
  datatype ExecReply = ExecReply(exitCode: int, output: string, error: Option<string>)

  /** The request made to the sandbox to run a command. */
  datatype ExecCall = ExecCall(containerId: string, cmd: seq<string>, timeoutSec: int)

  /** The request made to the sandbox to start a container. */
  datatype StartCall = StartCall(image: string, repoPath: string)

  /** Times are Unix nanoseconds. */
  datatype WorkerRunResult = WorkerRunResult(id: string, startedAt: int, finishedAt: int, exitCode: int,
                                             rawOutput: string, summary: string, error: Option<string>)

  const DefaultImage := "ghcr.io/biwakonbu/agent-runner-codex:latest"
  const DefaultTimeoutSec := 1800
  const WorkerSummary := "Worker executed"

  /** The fixed worker command; the prompt follows as its last argument. */
  const CodexCommand: seq<string> :=
    ["codex", "exec", "--sandbox", "workspace-write", "--json", "--cwd", "/workspace/project"]

  /** The run's time limit: the configured one when positive, otherwise 30 minutes. */
  function TimeoutSec(cfg: WorkerConfig): (r: int)
    ensures r > 0
    ensures cfg.maxRunTimeSec > 0 ==> r == cfg.maxRunTimeSec
    ensures cfg.maxRunTimeSec <= 0 ==> r == DefaultTimeoutSec
  {
    if cfg.maxRunTimeSec <= 0 then DefaultTimeoutSec else cfg.maxRunTimeSec
  }

  function Command(prompt: string): (cmd: seq<string>)
    ensures |cmd| == |CodexCommand| + 1 && cmd[..|CodexCommand|] == CodexCommand && cmd[|cmd| - 1] == prompt
  {
    CodexCommand + [prompt]
  }

  /** The id of a run, after its start in whole seconds: `run-<seconds>`. */
  function RunId(startedAt: int): string {
    "run-" + IntToString(startedAt / 1_000_000_000)
  }

  function ImageOrDefault(image: string): (r: string)
    ensures r != "" && (image != "" ==> r == image)
  {
    if image == "" then DefaultImage else image
  }

  function RepoOrDefault(repo: string): (r: string)
    ensures r != "" && (repo != "" ==> r == repo)
  {
    if repo == "" then "." else repo
  }

  /** The id of the sandbox's local, unisolated provider. */
  const LocalSandboxId := "local-host"

  /** The log lines print the first twelve characters of the container id with a slice that
      needs twelve characters; `None` stands for the out-of-range slice. */
  function LogIdAsWritten(id: string): Option<string> {
    if |id| >= 12 then Some(id[..12]) else None
  }

  /** The local sandbox's id is shorter than twelve characters, so every log line naming the
      container fails with it. */
  lemma LocalSandboxIdBreaksLogging()
    ensures LogIdAsWritten(LocalSandboxId).None?
  {
  }

  /** At most the first twelve characters of the id, for any id. */
  function LogId(id: string): (r: string)
    ensures HasPrefix(id, r)
    ensures |r| == if |id| < 12 then |id| else 12
    ensures LogIdAsWritten(id).Some? ==> r == LogIdAsWritten(id).value
  {
    if |id| >= 12 then id[..12] else id
  }

  /** `Start` as a function of the current container id: the new id, the error, and the start
      request sent to the sandbox. */
  function AfterStart(current: string, cfg: WorkerConfig, repoPath: string,
                      abs: string -> Result<string, string>, started: Result<string, string>)
    : (r: (string, Option<WorkerError>, Option<StartCall>))
    ensures current != "" ==> r == (current, Some(AlreadyStarted(current)), None)
    ensures r.1.None? <==> current == "" && abs(RepoOrDefault(repoPath)).Ok? && started.Ok?
    ensures r.2.Some? <==> current == "" && abs(RepoOrDefault(repoPath)).Ok?
    ensures r.1.Some? ==> r.0 == current
    ensures r.2.Some? ==> r.2.value.image == ImageOrDefault(cfg.dockerImage) &&
                          r.2.value.repoPath == abs(RepoOrDefault(repoPath)).value
    ensures r.1.None? ==> r.0 == started.value
  {
    if current != "" then (current, Some(AlreadyStarted(current)), None)
    else
      var repo := RepoOrDefault(repoPath);
      match abs(repo)
      case Err(e) => (current, Some(AbsPathFailed(repo, e)), None)
      case Ok(p) =>
        var call := Some(StartCall(ImageOrDefault(cfg.dockerImage), p));
        match started
        case Err(e) => (current, Some(StartFailed(e)), call)
        case Ok(id) => (id, None, call)
  }

  /** `Stop` as a function of the current container id: the new id, the error, and the id the
      sandbox is asked to stop. */
  function AfterStop(current: string, stopError: Option<string>): (r: (string, Option<WorkerError>, Option<string>))
    ensures r.0 == ""
    ensures current == "" ==> r.1 == Some(NoContainer) && r.2.None?
    ensures current != "" ==> r.2 == Some(current) && (r.1.None? <==> stopError.None?)
  {
    if current == "" then ("", Some(NoContainer), None)
    else ("", if stopError.Some? then Some(StopFailed(stopError.value)) else None, Some(current))
  }

  class Executor {
    const config: WorkerConfig
    const repoPath: string
    var containerId: string

    constructor(config: WorkerConfig, repoPath: string)
      ensures this.config == config && this.repoPath == repoPath && containerId == ""
    {
      this.config, this.repoPath, containerId := config, repoPath, "";
    }

    /** `RunWorker`: run the worker command in the started container. A failure of the command
        itself is reported inside the result, not as an error of the call. `shownId` is the
        container id as the log line shows it, cut to twelve characters only when it is longer. */
    method RunWorker(prompt: string, env: map<string, string>, reply: ExecReply, startedAt: int, finishedAt: int)
      returns (call: Option<ExecCall>, res: Result<WorkerRunResult, WorkerError>, shownId: string)
      ensures containerId == "" ==> call.None? && res == Err(NotStarted) && shownId == ""
      ensures containerId != "" ==> HasPrefix(containerId, shownId) && shownId == LogId(containerId)
      ensures containerId != "" ==>
                call == Some(ExecCall(containerId, Command(prompt), TimeoutSec(config))) && res.Ok? &&
                res.value.exitCode == reply.exitCode && res.value.rawOutput == reply.output &&
                res.value.error == reply.error && res.value.summary == WorkerSummary &&
                res.value.startedAt == startedAt && res.value.finishedAt == finishedAt &&
                res.value.id == RunId(startedAt)
    {
      if containerId == "" {
        return None, Err(NotStarted), "";
      }
      shownId := if |containerId| >= 12 then containerId[..12] else containerId;
      var timeoutSec := config.maxRunTimeSec;
      if timeoutSec <= 0 {
        timeoutSec := 1800;
      }
      var cmd := ["codex", "exec", "--sandbox", "workspace-write", "--json", "--cwd", "/workspace/project", prompt];
      assert cmd == Command(prompt);
      call := Some(ExecCall(containerId, cmd, timeoutSec));
      res := Ok(WorkerRunResult("run-" + IntToString(startedAt / 1_000_000_000), startedAt, finishedAt,
                                reply.exitCode, reply.output, "Worker executed", reply.error));
    }

    /** `Start`: refuse when a container is held; otherwise resolve the image and repository,
        ask the sandbox for a container and keep its id on success. */
    method Start(abs: string -> Result<string, string>, started: Result<string, string>)
      returns (err: Option<WorkerError>, call: Option<StartCall>)
      modifies this
      ensures (containerId, err, call) == AfterStart(old(containerId), config, repoPath, abs, started)
    {
      if containerId != "" {
        return Some(AlreadyStarted(containerId)), None;
      }
      var image := config.dockerImage;
      if image == "" {
        image := DefaultImage;
      }
      var repo := repoPath;
      if repo == "" {
        repo := ".";
      }
      var absRepo := abs(repo);
      if absRepo.Err? {
        return Some(AbsPathFailed(repo, absRepo.error)), None;
      }
      call := Some(StartCall(image, absRepo.value));
      if started.Err? {
        return Some(StartFailed(started.error)), call;
      }
      containerId := started.value;
      err := None;
    }

    /** `Stop`: the id is cleared before the sandbox is asked to stop the container, so it is
        cleared even when stopping fails. */
    method Stop(stopError: Option<string>) returns (err: Option<WorkerError>, stopped: Option<string>)
      modifies this
      ensures (containerId, err, stopped) == AfterStop(old(containerId), stopError)
    {
      if containerId == "" {
        return Some(NoContainer), None;
      }
      var id := containerId;
      containerId := "";
      if stopError.Some? {
        return Some(StopFailed(stopError.value)), Some(id);
      }
      return None, Some(id);
    }
  }

  /** A call that changes the executor's container. */
  datatype Op =
    | StartOp(abs: string -> Result<string, string>, started: Result<string, string>)
    | StopOp(stopError: Option<string>)

  /** The container id after a sequence of calls from `id`. */
  function Final(id: string, cfg: WorkerConfig, repo: string, ops: seq<Op>): string {
    if ops == [] then id
    else
      var prev := Final(id, cfg, repo, ops[..|ops| - 1]);
      match ops[|ops| - 1]
      case StartOp(abs, started) => AfterStart(prev, cfg, repo, abs, started).0
      case StopOp(e) => AfterStop(prev, e).0
  }

  /** The containers the sandbox started, less those it was asked to stop. */
  function Live(id: string, cfg: WorkerConfig, repo: string, ops: seq<Op>): int {
    if ops == [] then 0
    else
      var prev := Final(id, cfg, repo, ops[..|ops| - 1]);
      var live := Live(id, cfg, repo, ops[..|ops| - 1]);
      match ops[|ops| - 1]
      case StartOp(abs, started) => if AfterStart(prev, cfg, repo, abs, started).1.None? then live + 1 else live
      case StopOp(e) => if AfterStop(prev, e).2.Some? then live - 1 else live
  }

  /** No container leaks: from an executor with no container, and with the sandbox handing out
      non-empty ids, every started container but the one currently held has been asked to
      stop — at most one is live, and exactly one while an id is held. */
  lemma {:induction false} NoLeakedContainers(cfg: WorkerConfig, repo: string, ops: seq<Op>)
    requires forall i :: 0 <= i < |ops| && ops[i].StartOp? && ops[i].started.Ok? ==> ops[i].started.value != ""
    ensures Live("", cfg, repo, ops) == if Final("", cfg, repo, ops) == "" then 0 else 1
    decreases |ops|
  {
    if ops != [] {
      var init := ops[..|ops| - 1];
      assert forall i :: 0 <= i < |init| ==> init[i] == ops[i];
      NoLeakedContainers(cfg, repo, init);
    }
  }
}
