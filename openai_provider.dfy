/** The OpenAI chat client of the meta layer: which failures are retried, the retry loop
    of `callLLM`, and the defaults of the provider.

    The HTTP exchange is a script: round `k` gives what `client.Do` returned on attempt
    `k` and whether the context ended during the backoff wait after it. Waits are recorded
    as their lengths in seconds. */
module OpenAIProvider {
  import opened Text
  import opened MetaUtils

  /** What `client.Do` can fail with: a network timeout, the two context errors, or any
      other error. */
  datatype NetError = Timeout(message: string) | Canceled | DeadlineExceeded | Other(message: string)

  /** A response as the client reads it: the status code, the status line, the body, and
      the contents of the decoded choices, or the decoder's error. */
  datatype HttpResponse = HttpResponse(statusCode: int, status: string, body: string,
                                       choices: Result<seq<string>, string>)

  datatype Outcome = Failed(err: NetError) | Responded(resp: HttpResponse)

  /** One attempt: its outcome, and the context error if the context ends during the wait
      that follows it. */
  datatype Round = Round(outcome: Outcome, cut: Option<NetError>)

  datatype LlmError =
    | Transport(err: NetError)
    | ApiError(status: string, body: string)
    | DecodeFailed(message: string)
    | NoChoices
    | Interrupted(ctxErr: NetError)
    | Exhausted(last: LlmError)
    | ExhaustedWithoutCause

  const MaxRetries: nat := 3
  /** The first backoff, in seconds. */
  const BaseDelay: nat := 1

  function NetErrorText(e: NetError): string
  {
    match e
    case Timeout(m) => m
    case Canceled => "context canceled"
    case DeadlineExceeded => "context deadline exceeded"
    case Other(m) => m
  }

  /** The text of an error as `callLLM` returns it. */
  function ErrorText(e: LlmError): string
  {
    match e
    case Transport(n) => NetErrorText(n)
    case ApiError(status, body) => "OpenAI API error: " + status + " " + body
    case DecodeFailed(m) => m
    case NoChoices => "no choices returned from LLM"
    case Interrupted(n) => NetErrorText(n)
    case Exhausted(last) => "LLM request failed after " + NatToString(MaxRetries) + " retries: " + ErrorText(last)
    case ExhaustedWithoutCause => "LLM request failed after " + NatToString(MaxRetries) + " retries"
  }

  /** `isRetryableError`: a transport error is retried unless it is the context's
      cancellation; a response is retried for a 5xx status or 429. */
  function IsRetryableError(err: Option<NetError>, statusCode: Option<int>): (r: bool)
    ensures err == Some(Canceled) ==> !r
    ensures err.None? && statusCode.None? ==> !r
    ensures err.None? && statusCode == Some(429) ==> r
  {
    if err.Some? then
      match err.value
      case Timeout(_) => true
      case Canceled => false
      case DeadlineExceeded => true
      case Other(_) => true
    else if statusCode.Some? then
      (500 <= statusCode.value < 600) || statusCode.value == 429
    else false
  }

  /** Only cancellation stops a transport failure from being retried; only 5xx and 429
      make a response retried; with neither an error nor a response nothing is retried. */
  lemma RetryableIff(e: NetError, code: int)
    ensures !IsRetryableError(Some(e), None) <==> e == Canceled
    ensures IsRetryableError(None, Some(code)) <==> 500 <= code <= 599 || code == 429
    ensures !IsRetryableError(None, None)
    ensures !IsRetryableError(None, Some(200)) && !IsRetryableError(None, Some(400))
  {
  }

  function Pow2(k: nat): (r: nat)
    ensures r >= 1
  {
    if k == 0 then 1 else 2 * Pow2(k - 1)
  }

  /** The wait after attempt `k`: the base delay doubled `k` times. */
  function Backoff(k: nat): nat
  {
    BaseDelay * Pow2(k)
  }

  // ---------------------------------------------------------------------------------
  // The retry loop, as a specification

  /** What one attempt decides: stop with a result, or go on to the next attempt with the
      error it recorded; either way after the waits it began. */
  datatype Step =
    | Stop(result: Result<string, LlmError>, waited: seq<nat>)
    | Next(err: LlmError, waited: seq<nat>)

  /** After a retryable failure: wait unless this was the last attempt, and stop if the
      context ends during the wait. */
  function Retry(err: LlmError, cut: Option<NetError>, k: nat): Step
  {
    if k < MaxRetries then
      if cut.Some? then Stop(Err(Interrupted(cut.value)), [Backoff(k)])
      else Next(err, [Backoff(k)])
    else Next(err, [])
  }

  /** The body of the loop for attempt `k`. */
  function StepAt(r: Round, k: nat): Step
  {
    match r.outcome
    case Failed(e) =>
      if !IsRetryableError(Some(e), None) then Stop(Err(Transport(e)), [])
      else Retry(Transport(e), r.cut, k)
    case Responded(resp) =>
      if resp.statusCode != 200 then
        var err := ApiError(resp.status, resp.body);
        if !IsRetryableError(None, Some(resp.statusCode)) then Stop(Err(err), [])
        else Retry(err, r.cut, k)
      else
        match resp.choices
        case Err(m) => Stop(Err(DecodeFailed(m)), [])
        case Ok(cs) =>
          if |cs| == 0 then Stop(Err(NoChoices), []) else Stop(Ok(cs[0]), [])
  }

  /** The error after the loop runs out. */
  function ExhaustedError(lastErr: Option<LlmError>): LlmError
  {
    if lastErr.Some? then Exhausted(lastErr.value) else ExhaustedWithoutCause
  }

  /** What a call returns, the waits it began, and how many requests it sent. */
  datatype CallResult = CallResult(result: Result<string, LlmError>, delays: seq<nat>, attempts: nat)

  /** The calls from attempt `k` on, given the last error recorded before it. */
  function RunFrom(script: seq<Round>, k: nat, lastErr: Option<LlmError>): CallResult
    requires k <= MaxRetries + 1 <= |script|
    decreases MaxRetries + 1 - k
  {
    if k > MaxRetries then CallResult(Err(ExhaustedError(lastErr)), [], 0)
    else
      match StepAt(script[k], k)
      case Stop(res, w) => CallResult(res, w, 1)
      case Next(err, w) =>
        var rest := RunFrom(script, k + 1, Some(err));
        CallResult(rest.result, w + rest.delays, rest.attempts + 1)
  }

  /** `callLLM` on a script of responses. */
  function Call(script: seq<Round>): CallResult
    requires MaxRetries + 1 <= |script|
  {
    RunFrom(script, 0, None)
  }

  /** Results already produced, followed by the rest of the run. */
  function After(delays: seq<nat>, attempts: nat, rest: CallResult): CallResult
  {
    CallResult(rest.result, delays + rest.delays, attempts + rest.attempts)
  }

  /** An attempt that stops ends the run with its result. */
  lemma AfterStop(script: seq<Round>, k: nat, lastErr: Option<LlmError>, delays: seq<nat>, attempts: nat)
    requires k <= MaxRetries < |script|
    requires StepAt(script[k], k).Stop?
    ensures After(delays, attempts, RunFrom(script, k, lastErr)) ==
            CallResult(StepAt(script[k], k).result, delays + StepAt(script[k], k).waited, attempts + 1)
  {
  }

  /** An attempt that goes on adds its waits and one request, then the run continues. */
  lemma AfterNext(script: seq<Round>, k: nat, lastErr: Option<LlmError>, delays: seq<nat>, attempts: nat)
    requires k <= MaxRetries < |script|
    requires StepAt(script[k], k).Next?
    ensures After(delays, attempts, RunFrom(script, k, lastErr)) ==
            After(delays + StepAt(script[k], k).waited, attempts + 1,
                  RunFrom(script, k + 1, Some(StepAt(script[k], k).err)))
  {
    var w := StepAt(script[k], k).waited;
    var rest := RunFrom(script, k + 1, Some(StepAt(script[k], k).err));
    assert delays + (w + rest.delays) == delays + w + rest.delays;
  }

  /** The retry loop of `callLLM`. The request itself (JSON encoding, headers) is fixed
      and not modelled; `script` answers each attempt. */
  method CallLlm(script: seq<Round>) returns (result: Result<string, LlmError>, delays: seq<nat>, attempts: nat)
    requires MaxRetries + 1 <= |script|
    ensures CallResult(result, delays, attempts) == Call(script)
  {
    var lastErr: Option<LlmError> := None;
    delays, attempts := [], 0;
    var attempt := 0;
    assert delays + Call(script).delays == Call(script).delays;
    while attempt <= MaxRetries
      invariant 0 <= attempt <= MaxRetries + 1
      invariant attempts == attempt
      invariant After(delays, attempts, RunFrom(script, attempt, lastErr)) == Call(script)
    {
      var round := script[attempt];
      var step := StepAt(round, attempt);
      if step.Stop? {
        AfterStop(script, attempt, lastErr, delays, attempts);
      } else {
        AfterNext(script, attempt, lastErr, delays, attempts);
      }
      attempts := attempts + 1;
      var err: LlmError;
      match round.outcome {
        case Failed(e) =>
          err := Transport(e);
          if !IsRetryableError(Some(e), None) {
            return Err(err), delays + [], attempts;
          }
        case Responded(resp) =>
          if resp.statusCode != 200 {
            err := ApiError(resp.status, resp.body);
            if !IsRetryableError(None, Some(resp.statusCode)) {
              return Err(err), delays + [], attempts;
            }
          } else {
            match resp.choices {
              case Err(m) => return Err(DecodeFailed(m)), delays + [], attempts;
              case Ok(cs) =>
                if |cs| == 0 {
                  return Err(NoChoices), delays + [], attempts;
                }
                return Ok(cs[0]), delays + [], attempts;
            }
          }
      }
      assert step == Retry(err, round.cut, attempt);
      lastErr := Some(err);
      if attempt < MaxRetries {
        var delay := BaseDelay * Pow2(attempt);
        delays := delays + [delay];
        if round.cut.Some? {
          return Err(Interrupted(round.cut.value)), delays, attempts;
        }
      } else {
        delays := delays + [];
      }
      attempt := attempt + 1;
    }
    result := Err(ExhaustedError(lastErr));
    delays := delays + [];
  }

  // ---------------------------------------------------------------------------------
  // Properties of the retry loop

  /** The attempt `k` goes on to the next one. */
  predicate Retries(script: seq<Round>, k: nat)
    requires k < |script|
  {
    StepAt(script[k], k).Next?
  }

  function SumOf(xs: seq<nat>): nat
  {
    if xs == [] then 0 else SumOf(xs[..|xs| - 1]) + xs[|xs| - 1]
  }

  lemma {:induction false} SumOfAppend(xs: seq<nat>, ys: seq<nat>)
    ensures SumOf(xs + ys) == SumOf(xs) + SumOf(ys)
    decreases |ys|
  {
    if ys == [] {
      assert xs + ys == xs;
    } else {
      assert (xs + ys)[..|xs + ys| - 1] == xs + ys[..|ys| - 1];
      assert (xs + ys)[|xs + ys| - 1] == ys[|ys| - 1];
      SumOfAppend(xs, ys[..|ys| - 1]);
    }
  }

  /** One attempt waits at most once, 2^k seconds, and only before a retry or when the
      context ends the wait; the last attempt never waits. */
  lemma StepShape(r: Round, k: nat)
    ensures var s := StepAt(r, k);
            (s.waited == [] || (k < MaxRetries && s.waited == [Backoff(k)])) &&
            (s.Next? && k < MaxRetries ==> s.waited == [Backoff(k)]) &&
            (s.Stop? && s.waited != [] ==> s.result.Err? && s.result.error.Interrupted?)
  {
  }

  /** From attempt `k` on: at least one and at most 4 - k requests, at most 3 - k waits,
      and a wait follows every request but the last, unless the context cut the last wait
      short. */
  lemma {:induction false} RunFromCounts(script: seq<Round>, k: nat, lastErr: Option<LlmError>)
    requires k <= MaxRetries < |script|
    ensures var c := RunFrom(script, k, lastErr);
            1 <= c.attempts <= MaxRetries + 1 - k &&
            |c.delays| <= MaxRetries - k &&
            (|c.delays| + 1 == c.attempts ||
             (|c.delays| == c.attempts && c.result.Err? && c.result.error.Interrupted?))
    decreases MaxRetries - k
  {
    var s := StepAt(script[k], k);
    StepShape(script[k], k);
    if s.Next? && k < MaxRetries {
      RunFromCounts(script, k + 1, Some(s.err));
    }
  }

  /** From attempt `k` on, the i-th wait is 2^(k+i) seconds. */
  lemma {:induction false} RunFromDelays(script: seq<Round>, k: nat, lastErr: Option<LlmError>)
    requires k <= MaxRetries < |script|
    ensures var c := RunFrom(script, k, lastErr);
            forall i :: 0 <= i < |c.delays| ==> c.delays[i] == Backoff(k + i)
    decreases MaxRetries - k
  {
    var c := RunFrom(script, k, lastErr);
    match StepAt(script[k], k)
    case Stop(res, w) =>
    case Next(err, w) =>
      if k < MaxRetries {
        RunFromDelays(script, k + 1, Some(err));
        var rest := RunFrom(script, k + 1, Some(err));
        forall i | 0 <= i < |c.delays|
          ensures c.delays[i] == Backoff(k + i)
        {
          if i > 0 {
            assert c.delays[i] == rest.delays[i - 1];
          }
        }
      }
  }

  /** From attempt `k` on, the waits add up to at most 2^3 - 2^k seconds. */
  lemma {:induction false} RunFromSum(script: seq<Round>, k: nat, lastErr: Option<LlmError>)
    requires k <= MaxRetries < |script|
    ensures SumOf(RunFrom(script, k, lastErr).delays) + Pow2(k) <= Pow2(MaxRetries)
    decreases MaxRetries - k
  {
    var s := StepAt(script[k], k);
    StepShape(script[k], k);
    if s.waited != [] {
      assert SumOf(s.waited) == Backoff(k) by {
        assert s.waited[..0] == [];
      }
    }
    if s.Stop? {
      if s.waited != [] {
        Pow2Grows(k + 1, MaxRetries);
      } else {
        Pow2Grows(k, MaxRetries);
      }
    } else if k < MaxRetries {
      var rest := RunFrom(script, k + 1, Some(s.err));
      RunFromSum(script, k + 1, Some(s.err));
      SumOfAppend(s.waited, rest.delays);
    } else {
      assert RunFrom(script, k + 1, Some(s.err)).delays == [];
      assert s.waited + [] == [];
    }
  }

  lemma {:induction false} Pow2Grows(a: nat, b: nat)
    requires a <= b
    ensures Pow2(a) <= Pow2(b)
    decreases b - a
  {
    if a < b {
      Pow2Grows(a + 1, b);
    }
  }

  /** A call sends between one and four requests, waits at most three times, and waits
      after every request but the last unless the context ended a wait. */
  lemma CallBounds(script: seq<Round>)
    requires MaxRetries < |script|
    ensures var c := Call(script);
            1 <= c.attempts <= MaxRetries + 1 &&
            |c.delays| <= MaxRetries &&
            (|c.delays| + 1 == c.attempts ||
             (|c.delays| == c.attempts && c.result.Err? && c.result.error.Interrupted?))
  {
    RunFromCounts(script, 0, None);
  }

  /** The waits of a call are 1, 2, 4 seconds in that order, seven seconds at most in all. */
  lemma CallWaits(script: seq<Round>)
    requires MaxRetries < |script|
    ensures var c := Call(script);
            (forall i :: 0 <= i < |c.delays| ==> c.delays[i] == Pow2(i)) &&
            SumOf(c.delays) <= 7
  {
    var c := RunFrom(script, 0, None);
    RunFromDelays(script, 0, None);
    forall i | 0 <= i < |c.delays|
      ensures c.delays[i] == Pow2(i)
    {
      assert c.delays[i] == Backoff(0 + i);
    }
    RunFromSum(script, 0, None);
    TotalBackoff();
  }

  /** The waits of all three retries add up to seven seconds. */
  lemma TotalBackoff()
    ensures Pow2(MaxRetries) == 8
    ensures Backoff(0) + Backoff(1) + Backoff(2) == 7
  {
    assert Pow2(3) == 2 * Pow2(2) == 4 * Pow2(1);
  }

  /** When every attempt fails in a retryable way, four requests go out, the waits are
      1, 2 and 4 seconds (seven in all), and the error wraps the last attempt's error. */
  lemma AllRetriesExhausted(script: seq<Round>)
    requires MaxRetries < |script|
    requires Retries(script, 0) && Retries(script, 1) && Retries(script, 2) && Retries(script, 3)
    ensures Call(script) ==
            CallResult(Err(Exhausted(StepAt(script[MaxRetries], MaxRetries).err)), [1, 2, 4], 4)
    ensures SumOf(Call(script).delays) == 7
  {
    var e3 := StepAt(script[3], 3).err;
    var e2 := StepAt(script[2], 2).err;
    var e1 := StepAt(script[1], 1).err;
    var e0 := StepAt(script[0], 0).err;
    assert RunFrom(script, 3, Some(e2)) == CallResult(Err(Exhausted(e3)), [], 1);
    assert RunFrom(script, 2, Some(e1)) == CallResult(Err(Exhausted(e3)), [4], 2);
    assert RunFrom(script, 1, Some(e0)) == CallResult(Err(Exhausted(e3)), [2] + [4], 3);
    assert RunFrom(script, 0, None) == CallResult(Err(Exhausted(e3)), [1] + ([2] + [4]), 4);
    assert [1] + ([2] + [4]) == [1, 2, 4];
    assert SumOf([1, 2, 4]) == 7 by {
      assert [1, 2, 4][..2] == [1, 2];
      assert [1, 2][..1] == [1];
      assert [1][..0] == [];
    }
  }

  /** The first attempt that does not retry decides the call: after the earlier attempts
      were all retried, its result is the call's result, the call sent exactly that many
      requests, and it waited 2^i seconds after each earlier one. */
  lemma {:induction false} FirstStopDecides(script: seq<Round>, j: nat)
    requires j <= MaxRetries < |script|
    requires forall k :: 0 <= k < j ==> Retries(script, k)
    requires StepAt(script[j], j).Stop?
    ensures Call(script).result == StepAt(script[j], j).result
    ensures Call(script).attempts == j + 1
  {
    StopFrom(script, 0, j, None);
  }

  lemma {:induction false} StopFrom(script: seq<Round>, k: nat, j: nat, lastErr: Option<LlmError>)
    requires k <= j <= MaxRetries < |script|
    requires forall i :: k <= i < j ==> Retries(script, i)
    requires StepAt(script[j], j).Stop?
    ensures RunFrom(script, k, lastErr).result == StepAt(script[j], j).result
    ensures RunFrom(script, k, lastErr).attempts == j - k + 1
    decreases j - k
  {
    if k < j {
      assert Retries(script, k);
      StopFrom(script, k + 1, j, Some(StepAt(script[k], k).err));
    }
  }

  /** A call succeeds only with the first choice of a 200 response that has choices, sent
      as the last request, after only retried failures. */
  lemma SuccessShape(script: seq<Round>)
    requires MaxRetries < |script|
    requires Call(script).result.Ok?
    ensures var c := Call(script);
            var last := script[c.attempts - 1].outcome;
            1 <= c.attempts <= MaxRetries + 1 &&
            last.Responded? && last.resp.statusCode == 200 && last.resp.choices.Ok? &&
            |last.resp.choices.value| > 0 && c.result.value == last.resp.choices.value[0] &&
            forall k :: 0 <= k < c.attempts - 1 ==> Retries(script, k)
  {
    SuccessFrom(script, 0, None);
  }

  lemma {:induction false} SuccessFrom(script: seq<Round>, k: nat, lastErr: Option<LlmError>)
    requires k <= MaxRetries + 1 <= |script|
    requires RunFrom(script, k, lastErr).result.Ok?
    ensures var c := RunFrom(script, k, lastErr);
            var last := script[k + c.attempts - 1].outcome;
            1 <= c.attempts && k + c.attempts <= MaxRetries + 1 &&
            last.Responded? && last.resp.statusCode == 200 && last.resp.choices.Ok? &&
            |last.resp.choices.value| > 0 && c.result.value == last.resp.choices.value[0] &&
            forall i :: k <= i < k + c.attempts - 1 ==> Retries(script, i)
    decreases MaxRetries + 1 - k
  {
    if k <= MaxRetries && StepAt(script[k], k).Next? {
      SuccessFrom(script, k + 1, Some(StepAt(script[k], k).err));
    }
  }

  /** After at least one attempt an error has always been recorded, so the run never ends
      with the error that has no cause. */
  lemma {:induction false} NeverWithoutCause(script: seq<Round>, k: nat, lastErr: Option<LlmError>)
    requires k <= MaxRetries + 1 <= |script|
    requires k > 0 ==> lastErr.Some?
    ensures RunFrom(script, k, lastErr).result != Err(ExhaustedWithoutCause)
    decreases MaxRetries + 1 - k
  {
    if k <= MaxRetries {
      match StepAt(script[k], k)
      case Stop(res, w) =>
        NoStopWithoutCause(script[k], k);
      case Next(err, w) =>
        NeverWithoutCause(script, k + 1, Some(err));
    }
  }

  lemma NoStopWithoutCause(r: Round, k: nat)
    ensures StepAt(r, k).Stop? ==> StepAt(r, k).result != Err(ExhaustedWithoutCause)
  {
  }

  /** The message after the retries run out names the three retries and the last error. */
  lemma ExhaustedMessage(last: LlmError)
    ensures ErrorText(Exhausted(last)) == "LLM request failed after 3 retries: " + ErrorText(last)
  {
    assert NatToString(3) == "3";
  }

  // ---------------------------------------------------------------------------------
  // The provider and its defaults

  datatype Provider = Provider(apiKey: string, model: string, systemPrompt: string)

  datatype Message = Message(role: string, content: string)
  datatype ChatRequest = ChatRequest(model: string, messages: seq<Message>)

  /** `NewOpenAIProvider`; `defaultMetaModel` is the value of a constant defined outside
      this model. */
  function NewOpenAIProvider(apiKey: string, model: string, systemPrompt: string,
                             defaultMetaModel: string): (p: Provider)
    ensures model != "" ==> p.model == model
    ensures model == "" ==> p.model == defaultMetaModel
    ensures p.apiKey == apiKey && p.systemPrompt == systemPrompt
  {
    Provider(apiKey, if model == "" then defaultMetaModel else model, systemPrompt)
  }

  function Name(): string
  {
    "openai-chat"
  }

  /** The body `callLLM` sends: the provider's model, then a system and a user message. */
  function RequestBody(p: Provider, systemPrompt: string, userPrompt: string): (r: ChatRequest)
    ensures r.model == p.model && |r.messages| == 2
    ensures r.messages[0].role == "system" && r.messages[0].content == systemPrompt
    ensures r.messages[1].role == "user" && r.messages[1].content == userPrompt
  {
    ChatRequest(p.model, [Message("system", systemPrompt), Message("user", userPrompt)])
  }

  /** The three requests that take the stored system prompt. */
  datatype Purpose = PlanTask | NextAction | CompletionAssessment

  /** The opening all three built-in prompts share. */
  const MetaAgentIntro := "You are a Meta-agent "

  function BuiltinPrompt(purpose: Purpose): string
  {
    match purpose
    case PlanTask =>
      MetaAgentIntro + "that plans software development tasks.\n" +
      "Output MUST be a JSON block with the following structure:\n" +
      "{\n  \"type\": \"plan_task\",\n  \"version\": 1,\n  \"payload\": { ... }\n}"
    case NextAction => MetaAgentIntro + "that orchestrates a coding task.\nOutput MUST be a JSON block."
    case CompletionAssessment => MetaAgentIntro + "evaluating task completion."
  }

  /** The system prompt of a request: the stored one when it is set, otherwise the
      built-in one for that request. */
  function SystemPromptFor(p: Provider, purpose: Purpose): (r: string)
    ensures p.systemPrompt != "" ==> r == p.systemPrompt
    ensures p.systemPrompt == "" ==> r == BuiltinPrompt(purpose)
  {
    if p.systemPrompt == "" then BuiltinPrompt(purpose) else p.systemPrompt
  }

  /** Every request that takes the stored prompt sends a non-empty one. */
  lemma SystemPromptNeverEmpty(p: Provider, purpose: Purpose)
    ensures SystemPromptFor(p, purpose) != ""
  {
    if p.systemPrompt == "" {
      assert |BuiltinPrompt(purpose)| >= |MetaAgentIntro| > 0;
    }
  }

  function PlanTaskUserPrompt(prdText: string): string
  {
    "PRD:\n" + prdText + "\n\nGenerate the plan."
  }

  function NextActionUserPrompt(title: string, state: string, criteria: nat, workerRuns: int): string
  {
    "Context:\n" + "Task: " + title + "\nState: " + state + "\nACs: " + NatToString(criteria) +
    "\nWorkerRuns: " + IntToString(workerRuns) + "\n\nDecide next action."
  }

  function CompletionUserPrompt(title: string): string
  {
    "Task: " + title + "\nEvaluate completion."
  }

  /** Each user prompt carries its input text right after its label. */
  lemma UserPromptsCarryInputs(prdText: string, title: string, state: string, criteria: nat, workerRuns: int)
    ensures OccursAt(prdText, PlanTaskUserPrompt(prdText), 5)
    ensures OccursAt(title, NextActionUserPrompt(title, state, criteria, workerRuns), 15)
    ensures OccursAt(title, CompletionUserPrompt(title), 6)
  {
    var n := NextActionUserPrompt(title, state, criteria, workerRuns);
    assert n[15..15 + |title|] == title;
  }
}
