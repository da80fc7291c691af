/** The Cursor CLI wrapper: it turns a request into an execution plan for `cursor`. */
module Cursor {
  import opened Text
  import opened AgentTools

  const DefaultCursorModel := "claude-3-5-sonnet-20241022"
  const CursorKind := "cursor-cli"
  const DefaultCli := "cursor"
  const CursorNotes := "Cursor CLI wrapper. Assumes `cursor chat` or similar interface."

  /** The argument that tells the CLI to read the prompt from standard input. */
  const StdinMarker := "-"

  datatype CursorProvider = CursorProvider(cliPath: string, model: string, env: Env, flags: seq<string>)

  /** `NewCursorProvider`: the configured CLI path or `cursor`, and a copy of the flags. */
  function NewCursorProvider(cfg: ProviderConfig): (p: CursorProvider)
    ensures p.cliPath != "" && (cfg.cliPath != "" ==> p.cliPath == cfg.cliPath)
    ensures cfg.cliPath == "" ==> p.cliPath == DefaultCli
    ensures p.model == cfg.model && p.flags == cfg.flags && p.env == Merged(NoEnv, cfg.extraEnv)
  {
    CursorProvider(NonEmpty(cfg.cliPath, DefaultCli), cfg.model, Merged(NoEnv, cfg.extraEnv), cfg.flags)
  }

  function Capabilities(p: CursorProvider): (c: Capability)
    ensures c.kind == CursorKind && c.supportsStdin && c.defaultModel != ""
    ensures p.model != "" ==> c.defaultModel == p.model
    ensures p.model == "" ==> c.defaultModel == DefaultCursorModel
  {
    Capability(CursorKind, NonEmpty(p.model, DefaultCursorModel), true, CursorNotes)
  }

  /** `Build`. The prompt check comes first, then the mode; no model is passed, the arguments
      are the provider's flags, the request's flags and then either `-` (the prompt going to
      standard input) or the prompt. */
  function Build(p: CursorProvider, req: Request, ensurePrompt: string -> Option<string>)
    : (r: Result<ExecPlan, BuildError>)
    ensures ensurePrompt(req.prompt).Some? ==> r == Err(PromptRejected(ensurePrompt(req.prompt).value))
    ensures ensurePrompt(req.prompt).None? && EffectiveMode(req) != ExecMode ==>
              r == Err(UnsupportedMode(req.mode))
    ensures r.Ok? <==> ensurePrompt(req.prompt).None? && (req.mode == "" || req.mode == ExecMode)
    ensures r.Ok? ==>
              var a := r.value.args;
              var f := |p.flags| + |req.flags|;
              |a| == f + 1 && a[..|p.flags|] == p.flags && a[|p.flags|..f] == req.flags &&
              a[f] == (if req.useStdin then StdinMarker else req.prompt) &&
              r.value.stdin == (if req.useStdin then req.prompt else "") &&
              r.value.command == p.cliPath && r.value.env == Merged(p.env, req.extraEnv) &&
              r.value.workdir == req.workdir && r.value.timeout == req.timeout
  {
    match ensurePrompt(req.prompt)
    case Some(e) => Err(PromptRejected(e))
    case None =>
      if EffectiveMode(req) != ExecMode then Err(UnsupportedMode(req.mode))
      else
        var args := p.flags + req.flags;
        var plan := ExecPlan(p.cliPath, args, Merged(p.env, req.extraEnv), req.workdir, req.timeout, "");
        if req.useStdin then Ok(plan.(stdin := req.prompt, args := args + [StdinMarker]))
        else Ok(plan.(args := args + [req.prompt]))
  }

  /** Unlike the Claude wrapper, no model ever reaches the command line: when no flag is
      `--model`, neither is any argument but possibly the prompt itself. */
  lemma NoModelFlag(p: CursorProvider, req: Request, ensurePrompt: string -> Option<string>)
    requires Build(p, req, ensurePrompt).Ok?
    requires "--model" !in p.flags && "--model" !in req.flags
    ensures var a := Build(p, req, ensurePrompt).value.args;
            forall i :: 0 <= i < |a| - 1 ==> a[i] != "--model"
  {
    var a := Build(p, req, ensurePrompt).value.args;
    forall i | 0 <= i < |a| - 1 ensures a[i] != "--model" {
      if i < |p.flags| {
        assert a[i] in p.flags;
      } else {
        assert a[i] == req.flags[i - |p.flags|];
      }
    }
  }
}
