/** The engine as it runs: an object whose state every turn and every tool call updates. */
module EngineExecution {
  import opened Prelude
  import opened Decimal
  import opened Bytes
  import opened RuntimeApi
  import opened EngineLimits
  import opened EngineLoop
  import opened EngineRuns

  /* The tool registry */

  datatype ToolError = ContextError(fault: Fault) | CodedError(code: bytes, message: bytes) | PlainError(message: bytes)

  /** What a tool implementation answers to the n-th call of a run. */
  datatype Registry = Registry(
    allowed: map<bytes, (nat, bytes) -> Result<ToolResult, ToolError>>,
    known: set<bytes>)

  function Refusal(call: ToolCall, code: bytes, message: bytes): ToolResult {
    ToolResult(call.id, call.name, message, true, code, false)
  }

  /** A result always carries the id and name of its call; only cancellation is an error. */
  function RegistryExecute(maybe: Option<Registry>, n: nat, call: ToolCall): (r: Result<ToolResult, Fault>)
    ensures r.Ok? ==> r.value.callId == call.id && r.value.name == call.name
    ensures (r.Err? <==>
               && maybe.Some? && call.name in maybe.value.allowed
               && maybe.value.allowed[call.name](n, call.arguments).Err?
               && maybe.value.allowed[call.name](n, call.arguments).error.ContextError?)
    ensures maybe.None? || call.name !in maybe.value.allowed ==> r.value.isError
  {
    if maybe.None? then Ok(Refusal(call, Ascii("tool_unavailable"), Ascii("tool execution is unavailable")))
    else RegisteredExecute(maybe.value, n, call)
  }

  function RegisteredExecute(registry: Registry, n: nat, call: ToolCall): Result<ToolResult, Fault> {
    if call.name !in registry.allowed then
      Ok(if call.name in registry.known then Refusal(call, Ascii("tool_denied"), Ascii("tool is not allowed for this run"))
         else Refusal(call, Ascii("unknown_tool"), Ascii("tool is not available")))
    else
      match registry.allowed[call.name](n, call.arguments)
      case Ok(result) => Ok(result.(callId := call.id, name := call.name))
      case Err(ContextError(fault)) => Err(fault)
      case Err(CodedError(code, message)) => Ok(Refusal(call, code, message))
      case Err(PlainError(message)) => Ok(Refusal(call, Ascii("tool_execution_failed"), message))
  }

  /** So a run with a registry stamps its results. */
  lemma RegistryStamps(env: Environment, registry: Option<Registry>)
    requires forall n, call :: env.execute(n, call) == RegistryExecute(registry, n, call)
    ensures Stamps(env)
  {
    hide RegistryExecute;
  }

  lemma ValidUsageOf(validJson: bytes -> bool, response: Response)
    requires ValidResponse(validJson, response)
    ensures ValidUsage(response.usage)
  {
  }

  class Execution {
    const config: Config
    const env: Environment

    var messages: seq<Message>
    var usage: Usage
    var consumedTokens: Int64
    var totalToolOutputBytes: int
    var turns: nat
    var toolCalls: nat
    var lastRequestId: bytes

    ghost var requests: seq<Request>
    ghost var responses: seq<Response>
    ghost var executed: seq<ToolCall>
    ghost var results: seq<ToolResult>

    ghost function Now(): State
      reads this
    {
      State(messages, usage, consumedTokens, totalToolOutputBytes, turns, toolCalls, lastRequestId,
            requests, responses, executed, results)
    }

    constructor (config: Config, env: Environment)
      ensures this.config == config && this.env == env && Now() == NewState(config.goal)
    {
      this.config := config;
      this.env := env;
      messages, usage := [GoalMessage(config.goal)], NO_USAGE;
      consumedTokens, totalToolOutputBytes, turns, toolCalls, lastRequestId := 0, 0, 0, 0, [];
      requests, responses, executed, results := [], [], [], [];
    }

    method Failure(code: Code, requestId: bytes) returns (result: RunResult)
      ensures result == Fail(Now(), code, requestId)
    {
      result := RunResult(Some(code), None, usage, turns, toolCalls, requestId);
    }

    /** One request to the provider; the outcome's state is this object's. */
    method TakeTurn() returns (outcome: TurnOutcome, ghost turn: Turn)
      modifies this
      ensures turn == ProviderTurn(config, env, old(Now())) && turn.s == Now()
      ensures Describes(outcome, turn)
    {
      hide ValidResponse, CallsIn, TextOf, NormalizeError, TerminalStopFailure, AddUsage, GoalMessage, TokensOf;
      ghost var s := Now();
      turn := ProviderTurn(config, env, s);
      if Reached(config.limits.maxTurns, turns) {
        var result := Failure(Limit(TurnLimit), lastRequestId);
        return Ended(result), turn;
      }
      turns := turns + 1;
      var request := Request(config.model, messages, RemainingTokenBudget(config.limits, consumedTokens), env.definitions);
      requests := requests + [request];
      var reply := env.complete(turns - 1, request);
      if reply.Err? {
        var (code, requestId) := NormalizeError(reply.error);
        var result := Failure(code, requestId);
        return Ended(result), turn;
      }
      var response := reply.value;
      lastRequestId := response.requestId;
      var valid := ValidateResponse(env.validJson, response);
      if !valid {
        var result := Failure(InvalidProviderResponse, response.requestId);
        return Ended(result), turn;
      }
      ValidUsageOf(env.validJson, response);
      RecordUsage(response);
      assert turn == AfterResponse(config, Now(), response);
      outcome := ConcludeTurn(response);
    }

    method RecordUsage(response: Response)
      requires ValidUsage(response.usage)
      modifies this
      ensures Now() == Account(old(Now()), response)
    {
      usage := AddUsage(usage, response.usage);
      var measured := MeasuredTokens(response.usage);
      consumedTokens := SaturatingAdd(consumedTokens, measured);
      responses := responses + [response];
      hide AddUsage, TokensOf, ValidUsage;
    }

    method ConcludeTurn(response: Response) returns (outcome: TurnOutcome)
      modifies this
      ensures var turn := AfterResponse(config, old(Now()), response); turn.s == Now() && Describes(outcome, turn)
    {
      hide CallsIn, TextOf, TerminalStopFailure;
      if config.limits.tokenBudget.Some? && consumedTokens > config.limits.tokenBudget.value {
        var result := Failure(Limit(TokenLimit), response.requestId);
        return Ended(result);
      }
      messages := messages + [response.message];
      var calls := MessageToolCalls(response.message);
      if |calls| > 0 {
        if !response.stopReason.ToolUse? {
          var result := Failure(InvalidProviderResponse, response.requestId);
          return Ended(result);
        }
        return ToolBatch(calls, response.requestId);
      }
      if response.stopReason.PauseTurn? {
        return PausedTurn;
      }
      if !response.stopReason.EndTurn? && !response.stopReason.StopSequence? {
        var result := Failure(TerminalStopFailure(response.stopReason), response.requestId);
        return Ended(result);
      }
      outcome := Ended(RunResult(None, Some(TextOf(response.message.content)), usage, turns, toolCalls, response.requestId));
    }

    /** Runs the calls of a batch in order; None when all of them are answered. */
    method RunToolBatch(calls: seq<ToolCall>, requestId: bytes) returns (failure: Option<RunResult>, ghost end: BatchEnd)
      modifies this
      ensures end == ExecuteToolBatch(config, env, old(Now()), calls, requestId) && end.s == Now()
      ensures failure == if end.Stopped? then Some(end.result) else None
    {
      hide BoundedResult, NormalizeError, Reached, CheckBeforeToolBatch;
      ghost var s := Now();
      end := ExecuteToolBatch(config, env, s, calls, requestId);
      var violation := CheckBeforeToolBatch(config.limits, consumedTokens, turns, toolCalls, totalToolOutputBytes, |calls|);
      if violation.Some? {
        var result := Failure(Limit(violation.value), requestId);
        return Some(result), end;
      }
      var blocks: seq<ContentBlock> := [];
      for i := 0 to |calls|
        invariant ExecuteCalls(config, env, Now(), calls, i, blocks, requestId) == end
      {
        if Reached(config.limits.maxTotalToolOutputBytes, totalToolOutputBytes) {
          var result := Failure(Limit(ToolOutputLimit), requestId);
          return Some(result), end;
        }
        var result, block := RunCall(calls[i], requestId);
        if result.Some? {
          return result, end;
        }
        blocks := blocks + [block];
      }
      messages := messages + [Message(ToolRole, blocks)];
      failure := None;
    }

    /** One tool call: its bounded result, or why the run ends here. */
    method RunCall(call: ToolCall, requestId: bytes)
      returns (failure: Option<RunResult>, block: ContentBlock)
      modifies this
      ensures var s := old(Now());
              var called := s.(toolCalls := s.toolCalls + 1, executed := s.executed + [call]);
              match env.execute(s.toolCalls, call)
              case Err(fault) => Now() == called && failure == Some(Fail(called, NormalizeError(fault).0, requestId))
              case Ok(result) =>
                var bounded := BoundedResult(config.limits, result, s.totalToolOutputBytes);
                Now() == Received(called, bounded) && failure.None? && block == AnswerBlock(bounded)
    {
      hide BoundedResult, NormalizeError;
      block := TextBlock([]);
      toolCalls := toolCalls + 1;
      executed := executed + [call];
      var reply := env.execute(toolCalls - 1, call);
      if reply.Err? {
        var (code, _) := NormalizeError(reply.error);
        var result := Failure(code, requestId);
        return Some(result), block;
      }
      var bounded, newTotal := ApplyToolOutput(config.limits, reply.value, totalToolOutputBytes);
      totalToolOutputBytes := newTotal;
      results := results + [bounded];
      return None, AnswerBlock(bounded);
    }

    method CleanUp(result: RunResult) returns (finished: RunResult)
      ensures finished == Finish(env.closes, Now(), result)
    {
      finished := result;
      if !env.closes && result.failure.None? {
        finished := Failure(ToolCleanupFailed, lastRequestId);
        finished := finished.(output := result.output);
      }
    }

    /** The whole run; `fuel` is any number of turns in which the loop ends. */
    method RunToEnd(ghost fuel: nat) returns (result: RunResult)
      requires Now() == NewState(config.goal) && Loop(config, env, Now(), fuel).Some?
      modifies this
      ensures Run(config, env, fuel) == Some(result)
      ensures Loop(config, env, old(Now()), fuel).value.s == Now()
    {
      hide ProviderTurn, ExecuteToolBatch, Finish;
      ghost var end := Loop(config, env, Now(), fuel);
      ghost var left := fuel;
      while true
        invariant Loop(config, env, Now(), left) == end && end.Some?
        decreases left
      {
        var outcome, turn := TakeTurn();
        match outcome {
          case PausedTurn =>
          case Ended(reached) =>
            result := CleanUp(reached);
            return;
          case ToolBatch(calls, requestId) =>
            var failure, _ := RunToolBatch(calls, requestId);
            if failure.Some? {
              result := CleanUp(failure.value);
              return;
            }
        }
        left := left - 1;
      }
    }
  }

  /** What a turn tells the loop; its state is in the object. */
  datatype TurnOutcome =
    | PausedTurn
    | Ended(result: RunResult)
    | ToolBatch(calls: seq<ToolCall>, requestId: bytes)

  ghost predicate Describes(outcome: TurnOutcome, turn: Turn) {
    match turn
    case Paused(_) => outcome == PausedTurn
    case Final(_, result) => outcome == Ended(result)
    case Broken(_, result) => outcome == Ended(result)
    case Batch(_, calls, requestId) => outcome == ToolBatch(calls, requestId)
  }
}
