/**
 One run of the reference engine as a function of what its provider and tools answer: turns, tool
 batches and the result. The environment is arbitrary; it may answer differently at every call.
 */
module EngineLoop {
  import opened Prelude
  import opened Decimal
  import opened Bytes
  import opened RuntimeApi
  import opened EngineLimits

  /* What can go wrong */

  datatype ContextState = Live | PastDeadline | WasCancelled

  datatype CallError =
    | DeadlineError | CancelError
    | ProviderError(code: bytes, requestId: bytes)
    | ConfigurationError(code: bytes)
    | OtherError

  /** An error together with the state of the context when it came back. */
  datatype Fault = Fault(context: ContextState, error: CallError)

  datatype Code =
    | DeadlineExceeded | Cancelled | ProviderCode(code: bytes) | ConfigurationCode(code: bytes)
    | InvalidProviderConfiguration | ProviderFailed
    | InvalidProviderResponse | MaxTokensReached | ContentFiltered | ProviderRefusal | ContextWindowExhausted
    | Limit(violation: Violation)
    | ToolCleanupFailed

  /** The code of a fault and the request id it carries. */
  function NormalizeError(fault: Fault): (Code, bytes) {
    if fault.context.PastDeadline? || fault.error.DeadlineError? then (DeadlineExceeded, [])
    else if fault.context.WasCancelled? || fault.error.CancelError? then (Cancelled, [])
    else match fault.error
      case ProviderError(code, requestId) => (ProviderCode(code), requestId)
      case ConfigurationError(code) => (if code == [] then InvalidProviderConfiguration else ConfigurationCode(code), [])
      case _ => (ProviderFailed, [])
  }

  function TerminalStopFailure(reason: StopReason): Code {
    match reason
    case MaxTokens => MaxTokensReached
    case ContentFilter => ContentFiltered
    case Refusal => ProviderRefusal
    case ContextWindowExceeded => ContextWindowExhausted
    case _ => InvalidProviderResponse
  }

  /* The run */

  /** The n-th request or tool call of a run may be answered in any way. */
  datatype Environment = Environment(
    complete: (nat, Request) -> Result<Response, Fault>,
    execute: (nat, ToolCall) -> Result<ToolResult, Fault>,
    definitions: seq<ToolDefinition>,
    validJson: bytes -> bool,
    closes: bool)

  datatype Config = Config(model: bytes, goal: bytes, limits: Limits)

  datatype RunResult = RunResult(
    failure: Option<Code>, output: Option<bytes>, usage: Usage, turns: nat, toolCalls: nat, requestId: bytes)

  /** The loop's state, followed by the record of what the run has asked for and received. */
  datatype State = State(
    messages: seq<Message>,
    usage: Usage,
    consumedTokens: Int64,
    totalToolOutputBytes: int,
    turns: nat,
    toolCalls: nat,
    lastRequestId: bytes,
    requests: seq<Request>,
    responses: seq<Response>,
    executed: seq<ToolCall>,
    results: seq<ToolResult>)

  function GoalMessage(goal: bytes): Message { Message(User, [TextBlock(goal)]) }

  function NewState(goal: bytes): State {
    State([GoalMessage(goal)], NO_USAGE, 0, 0, 0, 0, [], [], [], [], [])
  }

  function Fail(s: State, code: Code, requestId: bytes): RunResult {
    RunResult(Some(code), None, s.usage, s.turns, s.toolCalls, requestId)
  }

  function Succeed(s: State, message: Message, requestId: bytes): RunResult {
    RunResult(None, Some(TextOf(message.content)), s.usage, s.turns, s.toolCalls, requestId)
  }

  datatype Turn =
    | Paused(s: State)
    | Final(s: State, result: RunResult)
    | Batch(s: State, calls: seq<ToolCall>, requestId: bytes)
    | Broken(s: State, result: RunResult)

  function NextRequest(c: Config, env: Environment, s: State): Request {
    Request(c.model, s.messages, RemainingTokenBudget(c.limits, s.consumedTokens), env.definitions)
  }

  function ProviderTurn(c: Config, env: Environment, s: State): Turn {
    if Reached(c.limits.maxTurns, s.turns) then Broken(s, Fail(s, Limit(TurnLimit), s.lastRequestId))
    else
      var request := NextRequest(c, env, s);
      var asked := s.(turns := s.turns + 1, requests := s.requests + [request]);
      match env.complete(s.turns, request)
      case Err(fault) =>
        var (code, requestId) := NormalizeError(fault);
        Broken(asked, Fail(asked, code, requestId))
      case Ok(response) =>
        var answered := asked.(lastRequestId := response.requestId);
        if !ValidResponse(env.validJson, response) then
          Broken(answered, Fail(answered, InvalidProviderResponse, response.requestId))
        else
          AfterResponse(c, Account(answered, response), response)
  }

  function Account(s: State, response: Response): State
    requires ValidUsage(response.usage)
  {
    s.(usage := AddUsage(s.usage, response.usage),
       consumedTokens := SaturatingAdd(s.consumedTokens, Clamped(response.usage)),
       responses := s.responses + [response])
  }

  function Clamped(u: Usage): Int64
    requires ValidUsage(u)
  {
    UsageNotNegative(u);
    TokensOf(u)
  }

  function AfterResponse(c: Config, s: State, response: Response): Turn {
    if c.limits.tokenBudget.Some? && s.consumedTokens > c.limits.tokenBudget.value then
      Broken(s, Fail(s, Limit(TokenLimit), response.requestId))
    else
      var told := s.(messages := s.messages + [response.message]);
      var calls := CallsIn(response.message.content);
      if calls != [] then
        if response.stopReason.ToolUse? then Batch(told, calls, response.requestId)
        else Broken(told, Fail(told, InvalidProviderResponse, response.requestId))
      else if response.stopReason.PauseTurn? then Paused(told)
      else if response.stopReason.EndTurn? || response.stopReason.StopSequence? then
        Final(told, Succeed(told, response.message, response.requestId))
      else Broken(told, Fail(told, TerminalStopFailure(response.stopReason), response.requestId))
  }

  /** The end of a tool batch, or of the run in the middle of it. */
  datatype BatchEnd = Answered(s: State) | Stopped(s: State, result: RunResult)

  function ExecuteToolBatch(c: Config, env: Environment, s: State, calls: seq<ToolCall>, requestId: bytes): BatchEnd {
    match CheckBeforeToolBatch(c.limits, s.consumedTokens, s.turns, s.toolCalls, s.totalToolOutputBytes, |calls|)
    case Some(violation) => Stopped(s, Fail(s, Limit(violation), requestId))
    case None => ExecuteCalls(c, env, s, calls, 0, [], requestId)
  }

  function ExecuteCalls(c: Config, env: Environment, s: State, calls: seq<ToolCall>, i: nat,
                        blocks: seq<ContentBlock>, requestId: bytes): BatchEnd
    requires i <= |calls|
    decreases |calls| - i
  {
    if i == |calls| then Answered(s.(messages := s.messages + [Message(ToolRole, blocks)]))
    else if Reached(c.limits.maxTotalToolOutputBytes, s.totalToolOutputBytes) then
      Stopped(s, Fail(s, Limit(ToolOutputLimit), requestId))
    else
      var called := s.(toolCalls := s.toolCalls + 1, executed := s.executed + [calls[i]]);
      match env.execute(s.toolCalls, calls[i])
      case Err(fault) => Stopped(called, Fail(called, NormalizeError(fault).0, requestId))
      case Ok(result) =>
        var bounded := BoundedResult(c.limits, result, s.totalToolOutputBytes);
        ExecuteCalls(c, env, Received(called, bounded), calls, i + 1, blocks + [AnswerBlock(bounded)], requestId)
  }

  function Received(s: State, bounded: ToolResult): State {
    s.(totalToolOutputBytes := s.totalToolOutputBytes + |bounded.content|, results := s.results + [bounded])
  }

  /** A result before clean-up, and the state it was reached in. */
  datatype Ending = Ending(s: State, result: RunResult)

  /** The loop, cut off after `fuel` provider turns. */
  function Loop(c: Config, env: Environment, s: State, fuel: nat): Option<Ending>
    decreases fuel
  {
    if fuel == 0 then None
    else
      match ProviderTurn(c, env, s)
      case Paused(t) => Loop(c, env, t, fuel - 1)
      case Final(t, result) => Some(Ending(t, result))
      case Broken(t, result) => Some(Ending(t, result))
      case Batch(t, calls, requestId) =>
        match ExecuteToolBatch(c, env, t, calls, requestId)
        case Answered(u) => Loop(c, env, u, fuel - 1)
        case Stopped(u, result) => Some(Ending(u, result))
  }

  /** Closing the tools can turn a success into a failure, but never loses its output. */
  function Finish(closes: bool, s: State, result: RunResult): RunResult {
    if closes || result.failure.Some? then result
    else Fail(s, ToolCleanupFailed, s.lastRequestId).(output := result.output)
  }

  function Run(c: Config, env: Environment, fuel: nat): Option<RunResult> {
    match Loop(c, env, NewState(c.goal), fuel)
    case None => None
    case Some(ending) => Some(Finish(env.closes, ending.s, ending.result))
  }
}
