/** The types shared by the agent CLI wrappers: a provider's configuration, a build request,
    and the execution plan a provider builds for it. The helpers `ensurePrompt` and `mergeEnv`
    live outside the wrappers and are not part of this model: the prompt check is a parameter
    of `Build`, and an environment records the merges that produced it. */
module AgentTools {
  datatype ProviderConfig = ProviderConfig(cliPath: string, model: string, extraEnv: map<string, string>,
                                           flags: seq<string>)

  /** Timeouts are durations in nanoseconds. */
  datatype Request = Request(prompt: string, mode: string, model: string, flags: seq<string>,
                             extraEnv: map<string, string>, workdir: string, timeout: int, useStdin: bool)

  /** An environment as the result of `mergeEnv` applied to a base and extra variables. */
  datatype Env = NoEnv | Merged(base: Env, extra: map<string, string>)

  datatype ExecPlan = ExecPlan(command: string, args: seq<string>, env: Env, workdir: string,
                               timeout: int, stdin: string)

  datatype Capability = Capability(kind: string, defaultModel: string, supportsStdin: bool, notes: string)

  datatype BuildError =
    | PromptRejected(cause: string)   // the prompt check's own error
    | UnsupportedMode(mode: string)   // "<ErrUnsupportedMode>: <mode> (only 'exec' is supported)"

  /** The one mode the wrappers support; an empty mode means it. */
  const ExecMode := "exec"

  /** `nonEmpty`: the value unless it is empty, else the fallback. */
  function NonEmpty(value: string, fallback: string): (r: string)
    ensures value != "" ==> r == value
    ensures value == "" ==> r == fallback
  {
    if value != "" then value else fallback
  }

  /** A request's mode with the empty mode read as `exec`. */
  function EffectiveMode(req: Request): (m: string)
    ensures m == ExecMode <==> req.mode == "" || req.mode == ExecMode
  {
    NonEmpty(req.mode, ExecMode)
  }
}
