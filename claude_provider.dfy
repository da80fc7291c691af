/** The Claude Code CLI wrapper: it turns a request into an execution plan for `claude`. */
module Claude {
  import opened Text
  import opened AgentTools

  const DefaultClaudeModel := "claude-3-5-sonnet-20241022"
  const ClaudeKind := "claude-code"
  const DefaultCli := "claude"
  const ClaudeNotes := "Claude Code CLI wrapper. Assumes `claude [prompt]` interface."

  datatype ClaudeProvider = ClaudeProvider(cliPath: string, model: string, env: Env, flags: seq<string>)

  /** `NewClaudeProvider`: the configured CLI path or `claude`, and a copy of the flags. */
  function NewClaudeProvider(cfg: ProviderConfig): (p: ClaudeProvider)
    ensures p.cliPath != "" && (cfg.cliPath != "" ==> p.cliPath == cfg.cliPath)
    ensures cfg.cliPath == "" ==> p.cliPath == DefaultCli
    ensures p.model == cfg.model && p.flags == cfg.flags && p.env == Merged(NoEnv, cfg.extraEnv)
  {
    ClaudeProvider(NonEmpty(cfg.cliPath, DefaultCli), cfg.model, Merged(NoEnv, cfg.extraEnv), cfg.flags)
  }

  function Capabilities(p: ClaudeProvider): (c: Capability)
    ensures c.kind == ClaudeKind && c.supportsStdin && c.defaultModel != ""
    ensures p.model != "" ==> c.defaultModel == p.model
    ensures p.model == "" ==> c.defaultModel == DefaultClaudeModel
  {
    Capability(ClaudeKind, NonEmpty(p.model, DefaultClaudeModel), true, ClaudeNotes)
  }

  /** The `--model` pair, present when the provider or the request names a model; the
      request's model wins. */
  function ModelArgs(p: ClaudeProvider, req: Request): (a: seq<string>)
    ensures p.model == "" && req.model == "" ==> a == []
    ensures p.model != "" || req.model != "" ==>
              |a| == 2 && a[0] == "--model" && a[1] != "" &&
              a[1] == (if req.model != "" then req.model else p.model)
  {
    if p.model != "" || req.model != "" then ["--model", NonEmpty(req.model, p.model)] else []
  }

  /** `Build`. The prompt check comes first, then the mode; the arguments are the model pair,
      the provider's flags, the request's flags and, unless the prompt goes to standard input,
      the prompt. */
  function Build(p: ClaudeProvider, req: Request, ensurePrompt: string -> Option<string>)
    : (r: Result<ExecPlan, BuildError>)
    ensures ensurePrompt(req.prompt).Some? ==> r == Err(PromptRejected(ensurePrompt(req.prompt).value))
    ensures ensurePrompt(req.prompt).None? && EffectiveMode(req) != ExecMode ==>
              r == Err(UnsupportedMode(req.mode))
    ensures r.Ok? <==> ensurePrompt(req.prompt).None? && (req.mode == "" || req.mode == ExecMode)
    ensures r.Ok? ==>
              var a := r.value.args;
              var m := |ModelArgs(p, req)|;
              var f := m + |p.flags| + |req.flags|;
              |a| == (if req.useStdin then f else f + 1) &&
              a[..m] == ModelArgs(p, req) && a[m..m + |p.flags|] == p.flags && a[m + |p.flags|..f] == req.flags &&
              (req.useStdin ==> r.value.stdin == req.prompt) &&
              (!req.useStdin ==> a[f] == req.prompt && r.value.stdin == "") &&
              r.value.command == p.cliPath && r.value.env == Merged(p.env, req.extraEnv) &&
              r.value.workdir == req.workdir && r.value.timeout == req.timeout
  {
    match ensurePrompt(req.prompt)
    case Some(e) => Err(PromptRejected(e))
    case None =>
      if EffectiveMode(req) != ExecMode then Err(UnsupportedMode(req.mode))
      else
        var args := ModelArgs(p, req) + p.flags + req.flags;
        var plan := ExecPlan(p.cliPath, args, Merged(p.env, req.extraEnv), req.workdir, req.timeout, "");
        if req.useStdin then Ok(plan.(stdin := req.prompt)) else Ok(plan.(args := args + [req.prompt]))
  }

  /** With the prompt on standard input it is not an argument (unless a flag happens to equal
      it); without, it is the last argument. */
  lemma PromptPlacement(p: ClaudeProvider, req: Request, ensurePrompt: string -> Option<string>)
    requires Build(p, req, ensurePrompt).Ok?
    requires req.prompt != "--model"
    requires req.prompt !in p.flags && req.prompt !in req.flags
    requires p.model != req.prompt && req.model != req.prompt
    ensures var plan := Build(p, req, ensurePrompt).value;
            (req.prompt in plan.args <==> !req.useStdin) &&
            (!req.useStdin ==> plan.args[|plan.args| - 1] == req.prompt)
  {
    var plan := Build(p, req, ensurePrompt).value;
    var pre := ModelArgs(p, req) + p.flags + req.flags;
    assert plan.args == if req.useStdin then pre else pre + [req.prompt];
    assert req.prompt !in pre;
  }
}
